/**
 * What `run` promises beyond single calls: the bounds of each
 * authorization, the trigger after the propagation wait whatever its
 * result, the record removed only after VALID, fail-fast over the
 * authorizations, the domain set shared by the order and the CSR, and the
 * two files written only when a certificate was obtained.
 */
module WildcardProperties {
  import opened Wrappers
  import opened Acme
  import opened Events
  import opened Polling
  import DnsLookupHelper
  import AlibabaDns
  import opened WildcardApplication

  /** Events that only the handling of one authorization produces. */
  predicate IsAuthorizationEvent(e: Event) {
    e.ResolveProvider? || e.VendorAdd? || e.DnsQuery? || e.Sleep? || e.Trigger? || e.StatusUpdate? || e.VendorDelete?
  }

  predicate AuthorizationEventsOnly(es: seq<Event>) {
    forall i :: 0 <= i < |es| ==> IsAuthorizationEvent(es[i])
  }

  predicate IsFetchCertificate(e: Event) { e.FetchCertificate? }

  /** An event that reports a VALID challenge: a trigger or an update answered VALID. */
  predicate ReportsValid(e: Event) {
    (e.Trigger? && e.triggerReply == Answer(Valid)) || (e.StatusUpdate? && e.updateReply == Answer(Valid))
  }

  lemma AuthorizationEventsOnlyConcat(a: seq<Event>, b: seq<Event>)
    requires AuthorizationEventsOnly(a) && AuthorizationEventsOnly(b)
    ensures AuthorizationEventsOnly(a + b)
  {
    forall i | 0 <= i < |a + b|
      ensures IsAuthorizationEvent((a + b)[i])
    {
      if i >= |a| {
        assert (a + b)[i] == b[i - |a|];
      }
    }
  }

  lemma CountFive(a: seq<Event>, b: seq<Event>, c: seq<Event>, d: seq<Event>, e: seq<Event>, p: Event -> bool)
    ensures Count(a + b + c + d + e, p) == Count(a, p) + Count(b, p) + Count(c, p) + Count(d, p) + Count(e, p)
  {
    CountConcat(a, b, p);
    CountConcat(a + b, c, p);
    CountConcat(a + b + c, d, p);
    CountConcat(a + b + c + d, e, p);
  }

  lemma CountCons(e: Event, es: seq<Event>, p: Event -> bool)
    ensures Count([e] + es, p) == (if p(e) then 1 else 0) + Count(es, p)
  {
    assert ([e] + es)[1..] == es;
  }

  /** A propagation wait neither updates, triggers, nor talks to the vendor. */
  lemma WaitCountsNothingElse(es: seq<Event>, query: DnsLookupHelper.Query)
    requires OnlyLookupsAndSleeps(es, query)
    ensures AuthorizationEventsOnly(es)
    ensures Count(es, IsStatusUpdate) == 0 && Count(es, IsTrigger) == 0
    ensures Count(es, IsVendorAdd) == 0 && Count(es, IsVendorDelete) == 0
  {
    CountZero(es, IsStatusUpdate);
    CountZero(es, IsTrigger);
    CountZero(es, IsVendorAdd);
    CountZero(es, IsVendorDelete);
  }

  /** A status poll neither looks up, triggers, talks to the vendor, fetches nor writes. */
  lemma PollCountsNothingElse(es: seq<Event>, target: PollTarget)
    requires OnlyUpdatesAndSleeps(es, target)
    ensures AuthorizationEventsOnly(es)
    ensures Count(es, IsDnsQuery) == 0 && Count(es, IsTrigger) == 0
    ensures Count(es, IsVendorAdd) == 0 && Count(es, IsVendorDelete) == 0
    ensures Count(es, IsOrderEvent) == 0 && Count(es, IsFetchCertificate) == 0 && Count(es, IsWriteFile) == 0
  {
    CountZero(es, IsDnsQuery);
    CountZero(es, IsTrigger);
    CountZero(es, IsVendorAdd);
    CountZero(es, IsVendorDelete);
    CountZero(es, IsOrderEvent);
    CountZero(es, IsFetchCertificate);
    CountZero(es, IsWriteFile);
  }

  /** An authorization that is neither skipped nor stopped before the add. */
  predicate ReachesAdd(cfg: Config, s: AuthScript) {
    && s.auth.dns01.Some?
    && s.auth.status != Valid && s.auth.dns01.value.status != Valid
    && AlibabaDns.IsRegistered(cfg.providerName)
  }

  function WaitOf(s: AuthScript): WaitResult
    requires s.auth.dns01.Some?
  {
    PropagationWait(s.auth.domain, s.auth.dns01.value.digest, s.dns, MaxAttempts, 0)
  }

  function PollOf(s: AuthScript): PollResult
    requires s.triggerReply.Answer?
  {
    StatusPoll(s.updates, s.triggerReply.status, ChallengeOf(s.auth.domain), MaxAttempts, 0)
  }

  /** The provider lookup and the add, the first two events of an authorization that reaches the add. */
  function AddPrefix(cfg: Config, s: AuthScript): seq<Event>
    requires s.auth.dns01.Some?
  {
    [ResolveProvider(cfg.providerName),
     VendorAdd(AlibabaDns.AddRequestFor(ConfiguredProvider(cfg), s.auth.domain, s.auth.dns01.value.digest, ChallengeLabel), s.addReply)]
  }

  /** The removal after a poll: one delete, by the id the add returned, exactly when the challenge became VALID. */
  function CleanupOf(cfg: Config, s: AuthScript): seq<Event>
    requires s.addReply.Accepted? && s.triggerReply.Answer?
  {
    if PollOf(s).end.Reached? then
      [VendorDelete(AlibabaDns.DeleteRequestFor(AlibabaDns.AfterAdd(ConfiguredProvider(cfg), s.addReply)), s.deleted)]
    else []
  }

  /** An authorization stopped before the add makes at most the provider lookup and is never authorized. */
  lemma AuthorizeBeforeAdd(cfg: Config, s: AuthScript)
    requires !ReachesAdd(cfg, s)
    ensures var r := Authorize(cfg, s);
            && !r.end.Authorized?
            && (r.events == [] || r.events == [ResolveProvider(cfg.providerName)])
  {
  }

  /** A rejected add ends the authorization right after the add, with the provider's message. */
  lemma AuthorizeRejectedAdd(cfg: Config, s: AuthScript)
    requires ReachesAdd(cfg, s) && s.addReply.Rejected?
    ensures Authorize(cfg, s)
            == AuthResult(Aborted(ProviderFailed(AlibabaDns.AddFailureMessage(s.auth.domain, ChallengeLabel))), AddPrefix(cfg, s))
  {
  }

  /** A failed trigger ends the authorization right after it. */
  lemma AuthorizeTriggerFailed(cfg: Config, s: AuthScript)
    requires ReachesAdd(cfg, s) && s.addReply.Accepted? && s.triggerReply.Failure?
    ensures Authorize(cfg, s)
            == AuthResult(Aborted(TriggerFailed(s.auth.domain)),
                          AddPrefix(cfg, s) + WaitOf(s).events + [Trigger(s.auth.domain, s.triggerReply)])
  {
    var added := AddPrefix(cfg, s);
    assert [ResolveProvider(cfg.providerName)] + [added[1]] == added;
  }

  /** An accepted trigger is followed by the poll and, when the poll reaches VALID, by the removal. */
  lemma AuthorizeAfterTrigger(cfg: Config, s: AuthScript)
    requires ReachesAdd(cfg, s) && s.addReply.Accepted? && s.triggerReply.Answer?
    ensures var r := Authorize(cfg, s);
            && r.events == AddPrefix(cfg, s) + WaitOf(s).events + [Trigger(s.auth.domain, s.triggerReply)]
                           + PollOf(s).events + CleanupOf(cfg, s)
            && (r.end.Authorized? <==> PollOf(s).end.Reached?)
  {
    if PollOf(s).end.Reached? {
      AuthorizeReached(cfg, s);
    } else {
      AuthorizeNotReached(cfg, s);
    }
  }

  lemma AuthorizeReached(cfg: Config, s: AuthScript)
    requires ReachesAdd(cfg, s) && s.addReply.Accepted? && s.triggerReply.Answer? && PollOf(s).end.Reached?
    ensures var r := Authorize(cfg, s);
            && r.events == AddPrefix(cfg, s) + WaitOf(s).events + [Trigger(s.auth.domain, s.triggerReply)]
                           + PollOf(s).events + CleanupOf(cfg, s)
            && r.end.Authorized?
  {
    var added := AddPrefix(cfg, s);
    assert [ResolveProvider(cfg.providerName)] + [added[1]] == added;
    var polled := added + WaitOf(s).events + [Trigger(s.auth.domain, s.triggerReply)] + PollOf(s).events;
    var request := AlibabaDns.DeleteRequestFor(AlibabaDns.AfterAdd(ConfiguredProvider(cfg), s.addReply));
    var warning := if s.deleted then None else Some(AlibabaDns.RemoveWarning(s.auth.domain, ChallengeLabel));
    assert Authorize(cfg, s) == AuthResult(Authorized(warning), polled + [VendorDelete(request, s.deleted)]);
  }

  lemma AuthorizeNotReached(cfg: Config, s: AuthScript)
    requires ReachesAdd(cfg, s) && s.addReply.Accepted? && s.triggerReply.Answer? && !PollOf(s).end.Reached?
    ensures var r := Authorize(cfg, s);
            && r.events == AddPrefix(cfg, s) + WaitOf(s).events + [Trigger(s.auth.domain, s.triggerReply)]
                           + PollOf(s).events + CleanupOf(cfg, s)
            && r.end.Aborted?
  {
    var added := AddPrefix(cfg, s);
    assert [ResolveProvider(cfg.providerName)] + [added[1]] == added;
    assert CleanupOf(cfg, s) == [];
  }

  /** A one-event piece whose event is of a given kind. */
  predicate SingleOrNone(es: seq<Event>, p: Event -> bool) {
    es == [] || (|es| == 1 && p(es[0]))
  }

  /** The provider lookup and the add: one add and nothing else that is counted. */
  lemma PrefixCounts(prefix: seq<Event>)
    requires |prefix| == 2 && prefix[0].ResolveProvider? && prefix[1].VendorAdd?
    ensures Count(prefix, IsDnsQuery) == 0 && Count(prefix, IsStatusUpdate) == 0 && Count(prefix, IsSleep) == 0
    ensures Count(prefix, IsVendorAdd) == 1 && Count(prefix, IsTrigger) == 0 && Count(prefix, IsVendorDelete) == 0
  {
    assert prefix[1..][1..] == [];
  }

  /** The pieces of an authorization that reaches the add, in order. */
  predicate AuthorizationPieces(prefix: seq<Event>, wait: seq<Event>, trigger: seq<Event>, poll: seq<Event>, cleanup: seq<Event>,
                                query: DnsLookupHelper.Query, target: PollTarget) {
    && |prefix| == 2 && prefix[0].ResolveProvider? && prefix[1].VendorAdd?
    && OnlyLookupsAndSleeps(wait, query)
    && SingleOrNone(trigger, IsTrigger)
    && OnlyUpdatesAndSleeps(poll, target)
    && SingleOrNone(cleanup, IsVendorDelete)
  }

  /** Lookups come only from the wait, updates only from the poll, sleeps from both. */
  lemma WaitingBoundsOfPieces(prefix: seq<Event>, wait: seq<Event>, trigger: seq<Event>, poll: seq<Event>, cleanup: seq<Event>,
                              query: DnsLookupHelper.Query, target: PollTarget)
    requires AuthorizationPieces(prefix, wait, trigger, poll, cleanup, query, target)
    requires Count(wait, IsDnsQuery) <= MaxAttempts + 1 && Count(wait, IsSleep) <= MaxAttempts
    requires Count(poll, IsStatusUpdate) <= MaxAttempts && Count(poll, IsSleep) <= MaxAttempts
    ensures var es := prefix + wait + trigger + poll + cleanup;
            && Count(es, IsDnsQuery) <= MaxAttempts + 1
            && Count(es, IsStatusUpdate) <= MaxAttempts
            && Count(es, IsSleep) <= 2 * MaxAttempts
  {
    PrefixCounts(prefix);
    WaitCountsNothingElse(wait, query);
    PollCountsNothingElse(poll, target);
    CountFive(prefix, wait, trigger, poll, cleanup, IsDnsQuery);
    CountFive(prefix, wait, trigger, poll, cleanup, IsStatusUpdate);
    CountFive(prefix, wait, trigger, poll, cleanup, IsSleep);
  }

  /** The vendor and the trigger are each called once at most. */
  lemma CallBoundsOfPieces(prefix: seq<Event>, wait: seq<Event>, trigger: seq<Event>, poll: seq<Event>, cleanup: seq<Event>,
                           query: DnsLookupHelper.Query, target: PollTarget)
    requires AuthorizationPieces(prefix, wait, trigger, poll, cleanup, query, target)
    ensures var es := prefix + wait + trigger + poll + cleanup;
            && Count(es, IsVendorAdd) == 1
            && Count(es, IsTrigger) == |trigger|
            && Count(es, IsVendorDelete) == |cleanup|
  {
    PrefixCounts(prefix);
    WaitCountsNothingElse(wait, query);
    PollCountsNothingElse(poll, target);
    CountFive(prefix, wait, trigger, poll, cleanup, IsVendorAdd);
    CountFive(prefix, wait, trigger, poll, cleanup, IsTrigger);
    CountFive(prefix, wait, trigger, poll, cleanup, IsVendorDelete);
  }

  /**
   * One authorization looks up at most 51 times, updates its challenge at
   * most 50 times, sleeps at most 100 times, adds and triggers at most
   * once, and deletes at most once.
   */
  lemma AuthorizationBounds(cfg: Config, s: AuthScript)
    ensures var es := Authorize(cfg, s).events;
            && Count(es, IsDnsQuery) <= MaxAttempts + 1
            && Count(es, IsStatusUpdate) <= MaxAttempts
            && Count(es, IsSleep) <= 2 * MaxAttempts
            && Count(es, IsVendorAdd) <= 1
            && Count(es, IsTrigger) <= 1
            && Count(es, IsVendorDelete) <= 1
  {
    if !ReachesAdd(cfg, s) {
      AuthorizeBeforeAdd(cfg, s);
    } else if s.addReply.Rejected? {
      AuthorizeRejectedAdd(cfg, s);
      PrefixCounts(AddPrefix(cfg, s));
    } else {
      var query, target := DnsLookupHelper.ChallengeQuery(s.auth.domain), ChallengeOf(s.auth.domain);
      var wait := WaitOf(s).events;
      var trigger := [Trigger(s.auth.domain, s.triggerReply)];
      PropagationWaitEvents(s.auth.domain, s.auth.dns01.value.digest, s.dns, MaxAttempts, 0);
      PropagationWaitCounts(s.auth.domain, s.auth.dns01.value.digest, s.dns, MaxAttempts, 0);
      if s.triggerReply.Failure? {
        AuthorizeTriggerFailed(cfg, s);
        WaitingBoundsOfPieces(AddPrefix(cfg, s), wait, trigger, [], [], query, target);
        CallBoundsOfPieces(AddPrefix(cfg, s), wait, trigger, [], [], query, target);
        assert AddPrefix(cfg, s) + wait + trigger + [] + [] == AddPrefix(cfg, s) + wait + trigger;
      } else {
        AuthorizeAfterTrigger(cfg, s);
        StatusPollEvents(s.updates, s.triggerReply.status, target, MaxAttempts, 0);
        StatusPollCounts(s.updates, s.triggerReply.status, target, MaxAttempts, 0);
        WaitingBoundsOfPieces(AddPrefix(cfg, s), wait, trigger, PollOf(s).events, CleanupOf(cfg, s), query, target);
        CallBoundsOfPieces(AddPrefix(cfg, s), wait, trigger, PollOf(s).events, CleanupOf(cfg, s), query, target);
      }
    }
  }

  /**
   * Once the record is added, the challenge is triggered right after the
   * propagation wait, whether or not the wait saw the record.
   */
  lemma TriggerRegardlessOfPropagation(cfg: Config, s: AuthScript)
    requires ReachesAdd(cfg, s) && s.addReply.Accepted?
    ensures var es := Authorize(cfg, s).events;
            var n := |WaitOf(s).events|;
            && 2 + n < |es|
            && es[2..2 + n] == WaitOf(s).events
            && es[2 + n] == Trigger(s.auth.domain, s.triggerReply)
            && Count(es, IsTrigger) == 1
  {
    var es := Authorize(cfg, s).events;
    var query, target := DnsLookupHelper.ChallengeQuery(s.auth.domain), ChallengeOf(s.auth.domain);
    var prefix, wait := AddPrefix(cfg, s), WaitOf(s).events;
    var trigger := [Trigger(s.auth.domain, s.triggerReply)];
    PropagationWaitEvents(s.auth.domain, s.auth.dns01.value.digest, s.dns, MaxAttempts, 0);
    var poll: seq<Event>, cleanup: seq<Event> := [], [];
    if s.triggerReply.Failure? {
      AuthorizeTriggerFailed(cfg, s);
      assert es == prefix + wait + trigger + poll + cleanup;
    } else {
      AuthorizeAfterTrigger(cfg, s);
      StatusPollEvents(s.updates, s.triggerReply.status, target, MaxAttempts, 0);
      poll, cleanup := PollOf(s).events, CleanupOf(cfg, s);
    }
    CallBoundsOfPieces(prefix, wait, trigger, poll, cleanup, query, target);
    PiecePositions(prefix, wait, trigger, poll, cleanup);
  }

  /** Where the wait and the trigger sit among the pieces of an authorization. */
  lemma PiecePositions(prefix: seq<Event>, wait: seq<Event>, trigger: seq<Event>, poll: seq<Event>, cleanup: seq<Event>)
    requires |prefix| == 2 && |trigger| == 1
    ensures var es := prefix + wait + trigger + poll + cleanup;
            && 2 + |wait| < |es|
            && es[2..2 + |wait|] == wait
            && es[2 + |wait|] == trigger[0]
  {
    var es := prefix + wait + trigger + poll + cleanup;
    assert es == (prefix + wait) + (trigger + poll + cleanup);
    assert es[2 + |wait|] == (trigger + poll + cleanup)[0];
    assert es[2..2 + |wait|] == (prefix + wait)[2..];
  }

  /**
   * A rejected add throws out of the authorization: it is the last event,
   * and no lookup, trigger or delete follows.
   */
  lemma RejectedAddEndsAuthorization(cfg: Config, s: AuthScript)
    requires ReachesAdd(cfg, s) && s.addReply.Rejected?
    ensures var r := Authorize(cfg, s);
            && r.end == Aborted(ProviderFailed(AlibabaDns.AddFailureMessage(s.auth.domain, ChallengeLabel)))
            && r.events != [] && r.events[|r.events| - 1].VendorAdd? && r.events[|r.events| - 1].vendorReply == AlibabaDns.Rejected
            && Count(r.events, IsDnsQuery) == 0 && Count(r.events, IsTrigger) == 0 && Count(r.events, IsVendorDelete) == 0
  {
    AuthorizeRejectedAdd(cfg, s);
    PrefixCounts(AddPrefix(cfg, s));
  }

  /** In `front + [trigger] + poll + [cleanup]`, the event before `cleanup` is the last of the poll, or the trigger. */
  lemma ValidBeforeCleanup(front: seq<Event>, trigger: Event, poll: seq<Event>, cleanup: Event)
    requires poll == [] ==> ReportsValid(trigger)
    requires poll != [] ==> ReportsValid(poll[|poll| - 1])
    ensures var es := front + [trigger] + poll + [cleanup];
            |es| >= 2 && ReportsValid(es[|es| - 2]) && es[|es| - 1] == cleanup
  {
    var before := front + [trigger] + poll;
    assert (before + [cleanup])[|before| - 1] == before[|before| - 1];
    if poll != [] {
      assert before[|before| - 1] == poll[|poll| - 1];
    }
  }

  /** The event before the removal, in an authorization whose poll reached VALID, reports VALID. */
  lemma CleanupFollowsValid(cfg: Config, s: AuthScript)
    requires ReachesAdd(cfg, s) && s.addReply.Accepted? && s.triggerReply.Answer? && PollOf(s).end.Reached?
    ensures var es := Authorize(cfg, s).events;
            |es| >= 2 && ReportsValid(es[|es| - 2]) && es[|es| - 1] == CleanupOf(cfg, s)[0]
  {
    var target := ChallengeOf(s.auth.domain);
    var cleanup := CleanupOf(cfg, s);
    AuthorizeAfterTrigger(cfg, s);
    StatusPollEvents(s.updates, s.triggerReply.status, target, MaxAttempts, 0);
    StatusPollOutcome(s.updates, s.triggerReply.status, target, MaxAttempts, 0);
    assert cleanup == [cleanup[0]];
    ValidBeforeCleanup(AddPrefix(cfg, s) + WaitOf(s).events, Trigger(s.auth.domain, s.triggerReply), PollOf(s).events, cleanup[0]);
  }

  /**
   * The TXT record is removed exactly when the authorization succeeds, by
   * the id the add returned, and only right after the server reported the
   * challenge VALID.
   */
  lemma CleanupOnlyAfterValid(cfg: Config, s: AuthScript)
    ensures var r := Authorize(cfg, s);
            && Count(r.events, IsVendorDelete) == (if r.end.Authorized? then 1 else 0)
            && (r.end.Authorized? ==>
                  && s.addReply.Accepted? && |r.events| >= 2
                  && ReportsValid(r.events[|r.events| - 2])
                  && r.events[|r.events| - 1].VendorDelete?
                  && r.events[|r.events| - 1].deleteRequest.recordId == Some(s.addReply.recordId))
  {
    var es := Authorize(cfg, s).events;
    if !ReachesAdd(cfg, s) {
      AuthorizeBeforeAdd(cfg, s);
      assert Count([ResolveProvider(cfg.providerName)], IsVendorDelete) == 0;
    } else if s.addReply.Rejected? {
      AuthorizeRejectedAdd(cfg, s);
      PrefixCounts(AddPrefix(cfg, s));
    } else {
      var query, target := DnsLookupHelper.ChallengeQuery(s.auth.domain), ChallengeOf(s.auth.domain);
      var prefix, wait := AddPrefix(cfg, s), WaitOf(s).events;
      var trigger := [Trigger(s.auth.domain, s.triggerReply)];
      PropagationWaitEvents(s.auth.domain, s.auth.dns01.value.digest, s.dns, MaxAttempts, 0);
      if s.triggerReply.Failure? {
        AuthorizeTriggerFailed(cfg, s);
        CallBoundsOfPieces(prefix, wait, trigger, [], [], query, target);
        assert es == prefix + wait + trigger + [] + [];
      } else {
        AuthorizeAfterTrigger(cfg, s);
        StatusPollEvents(s.updates, s.triggerReply.status, target, MaxAttempts, 0);
        CallBoundsOfPieces(prefix, wait, trigger, PollOf(s).events, CleanupOf(cfg, s), query, target);
        if PollOf(s).end.Reached? {
          CleanupFollowsValid(cfg, s);
        }
      }
    }
  }

  /** The authorization is handled without throwing: skipped or authorized. */
  predicate Proceeds(cfg: Config, s: AuthScript) {
    !Authorize(cfg, s).end.Aborted?
  }

  /** The events of handling every authorization in turn, with nothing stopping the loop. */
  function EventsOfAll(cfg: Config, scripts: seq<AuthScript>): seq<Event>
    decreases |scripts|
  {
    if scripts == [] then [] else Authorize(cfg, scripts[0]).events + EventsOfAll(cfg, scripts[1..])
  }

  /** The authorization at `j` is the first one that throws. */
  predicate FailsFirstAt(cfg: Config, scripts: seq<AuthScript>, j: int) {
    && 0 <= j < |scripts|
    && !Proceeds(cfg, scripts[j])
    && forall i :: 0 <= i < j ==> Proceeds(cfg, scripts[i])
  }

  /** The loop over authorizations completes exactly when none of them throws, having handled them all. */
  lemma {:induction false} AuthorizeAllCompletes(cfg: Config, scripts: seq<AuthScript>)
    ensures var r := AuthorizeAll(cfg, scripts);
            && (r.failure.None? <==> forall j :: 0 <= j < |scripts| ==> Proceeds(cfg, scripts[j]))
            && (r.failure.None? ==> r.events == EventsOfAll(cfg, scripts))
    decreases |scripts|
  {
    if scripts != [] && Proceeds(cfg, scripts[0]) {
      var tail := scripts[1..];
      AuthorizeAllCompletes(cfg, tail);
      assert forall j :: 1 <= j < |scripts| ==> scripts[j] == tail[j - 1];
    }
  }

  /** When the loop over authorizations fails, it fails with the first one that throws and handles none after it. */
  lemma {:induction false} AuthorizeAllStopsAtFirst(cfg: Config, scripts: seq<AuthScript>)
    ensures var r := AuthorizeAll(cfg, scripts);
            r.failure.Some? ==>
              exists j :: FailsFirstAt(cfg, scripts, j)
                          && r.failure.value == Authorize(cfg, scripts[j]).end.failure
                          && r.events == EventsOfAll(cfg, scripts[..j + 1])
    decreases |scripts|
  {
    if scripts != [] {
      var first := Authorize(cfg, scripts[0]);
      if first.end.Aborted? {
        assert FailsFirstAt(cfg, scripts, 0);
        assert scripts[..1][1..] == [];
        assert EventsOfAll(cfg, scripts[..1]) == first.events + [];
      } else {
        var tail := scripts[1..];
        var rest := AuthorizeAll(cfg, tail);
        AuthorizeAllStopsAtFirst(cfg, tail);
        assert AuthorizeAll(cfg, scripts) == AuthorizationsResult(rest.failure, first.events + rest.events);
        if rest.failure.Some? {
          var j :| FailsFirstAt(cfg, tail, j) && rest.failure.value == Authorize(cfg, tail[j]).end.failure
                   && rest.events == EventsOfAll(cfg, tail[..j + 1]);
          assert forall i :: 1 <= i < |scripts| ==> scripts[i] == tail[i - 1];
          assert scripts[..j + 2][1..] == tail[..j + 1];
          assert FailsFirstAt(cfg, scripts, j + 1);
        }
      }
    }
  }

  /**
   * Fail-fast: the loop over authorizations fails exactly when one of them
   * throws; it then ends with the first such failure, and no authorization
   * after it is handled.
   */
  lemma AuthorizeAllFailFast(cfg: Config, scripts: seq<AuthScript>)
    ensures var r := AuthorizeAll(cfg, scripts);
            && (r.failure.None? <==> forall j :: 0 <= j < |scripts| ==> Proceeds(cfg, scripts[j]))
            && (r.failure.None? ==> r.events == EventsOfAll(cfg, scripts))
            && (r.failure.Some? ==>
                  exists j :: FailsFirstAt(cfg, scripts, j)
                              && r.failure.value == Authorize(cfg, scripts[j]).end.failure
                              && r.events == EventsOfAll(cfg, scripts[..j + 1]))
  {
    AuthorizeAllCompletes(cfg, scripts);
    AuthorizeAllStopsAtFirst(cfg, scripts);
  }

  /** Authorization events are none of the events of the outer flow. */
  lemma AuthorizationEventsCountNothingOuter(es: seq<Event>, domains: seq<string>)
    requires AuthorizationEventsOnly(es)
    ensures Count(es, IsOrderEvent) == 0 && Count(es, IsFetchCertificate) == 0 && Count(es, IsWriteFile) == 0
    ensures OrderEventsFor(es, domains)
  {
    CountZero(es, IsOrderEvent);
    CountZero(es, IsFetchCertificate);
    CountZero(es, IsWriteFile);
  }

  lemma PiecesAreAuthorizationEvents(prefix: seq<Event>, wait: seq<Event>, trigger: seq<Event>, poll: seq<Event>, cleanup: seq<Event>,
                                     query: DnsLookupHelper.Query, target: PollTarget)
    requires AuthorizationPieces(prefix, wait, trigger, poll, cleanup, query, target)
    ensures AuthorizationEventsOnly(prefix + wait + trigger + poll + cleanup)
  {
    WaitCountsNothingElse(wait, query);
    PollCountsNothingElse(poll, target);
    AuthorizationEventsOnlyConcat(prefix, wait);
    AuthorizationEventsOnlyConcat(prefix + wait, trigger);
    AuthorizationEventsOnlyConcat(prefix + wait + trigger, poll);
    AuthorizationEventsOnlyConcat(prefix + wait + trigger + poll, cleanup);
  }

  /** Handling an authorization produces nothing but authorization events. */
  lemma AuthorizeEventsOnly(cfg: Config, s: AuthScript)
    ensures AuthorizationEventsOnly(Authorize(cfg, s).events)
  {
    if !ReachesAdd(cfg, s) {
      AuthorizeBeforeAdd(cfg, s);
    } else if s.addReply.Rejected? {
      AuthorizeRejectedAdd(cfg, s);
    } else {
      var query, target := DnsLookupHelper.ChallengeQuery(s.auth.domain), ChallengeOf(s.auth.domain);
      var prefix, wait := AddPrefix(cfg, s), WaitOf(s).events;
      var trigger := [Trigger(s.auth.domain, s.triggerReply)];
      PropagationWaitEvents(s.auth.domain, s.auth.dns01.value.digest, s.dns, MaxAttempts, 0);
      if s.triggerReply.Failure? {
        AuthorizeTriggerFailed(cfg, s);
        PiecesAreAuthorizationEvents(prefix, wait, trigger, [], [], query, target);
        assert prefix + wait + trigger + [] + [] == prefix + wait + trigger;
      } else {
        AuthorizeAfterTrigger(cfg, s);
        StatusPollEvents(s.updates, s.triggerReply.status, target, MaxAttempts, 0);
        PiecesAreAuthorizationEvents(prefix, wait, trigger, PollOf(s).events, CleanupOf(cfg, s), query, target);
      }
    }
  }

  lemma {:induction false} AuthorizeAllEventsOnly(cfg: Config, scripts: seq<AuthScript>)
    ensures AuthorizationEventsOnly(AuthorizeAll(cfg, scripts).events)
    decreases |scripts|
  {
    if scripts != [] {
      AuthorizeEventsOnly(cfg, scripts[0]);
      if !Authorize(cfg, scripts[0]).end.Aborted? {
        AuthorizeAllEventsOnly(cfg, scripts[1..]);
        AuthorizationEventsOnlyConcat(Authorize(cfg, scripts[0]).events, AuthorizeAll(cfg, scripts[1..]).events);
      }
    }
  }

  /** An order event carries `domains`: the order's identifiers, or the CSR's names. */
  predicate CarriesDomains(e: Event, domains: seq<string>) {
    && (e.CreateOrder? ==> e.orderDomains == domains)
    && (e.ExecuteOrder? ==> e.csrDomains == domains)
  }

  predicate OrderEventsFor(es: seq<Event>, domains: seq<string>) {
    forall i :: 0 <= i < |es| ==> CarriesDomains(es[i], domains)
  }

  lemma OrderEventsForConcat(a: seq<Event>, b: seq<Event>, domains: seq<string>)
    requires OrderEventsFor(a, domains) && OrderEventsFor(b, domains)
    ensures OrderEventsFor(a + b, domains)
  {
    forall i | 0 <= i < |a + b|
      ensures CarriesDomains((a + b)[i], domains)
    {
      if i >= |a| {
        assert (a + b)[i] == b[i - |a|];
      }
    }
  }

  /** An event that reports an INVALID order: the execute or an update answered INVALID. */
  predicate ReportsInvalid(e: Event) {
    (e.ExecuteOrder? && e.executeReply == Answer(Invalid)) || (e.StatusUpdate? && e.updateReply == Answer(Invalid))
  }

  function OrderPollOf(world: World): PollResult
    requires world.executeReply.Answer?
  {
    StatusPoll(world.orderUpdates, world.executeReply.status, TheOrder, MaxAttempts, 0)
  }

  /** Both output files, chain then key, written in full. */
  function Outputs(domain: string): seq<Event> {
    [WriteFile(ChainPath(domain), true), WriteFile(KeyPath(domain), true)]
  }

  /**
   * The files a run opened, given how it ended: both in full, last, when it
   * issued; only the chain file, left partial by a failed download, as the
   * last call when the download failed; none otherwise.
   */
  predicate WritesMatchOutcome(es: seq<Event>, domain: string, outcome: RunOutcome) {
    && Count(es, IsWriteFile) == (if outcome.Issued? then 2 else if outcome == Failed(ChainDownloadFailed) then 1 else 0)
    && (outcome.Issued? ==> |es| >= 2 && es[|es| - 2..] == Outputs(domain))
    && (outcome == Failed(ChainDownloadFailed) ==> es != [] && es[|es| - 1] == WriteFile(ChainPath(domain), false))
  }

  /**
   * What follows the order poll when it neither saw INVALID nor failed:
   * `getCertificate()`, then, with a certificate, the chain file opened and
   * filled by the download, then the key file if the download succeeded.
   */
  function FetchAndWrite(cfg: Config, world: World): seq<Event> {
    [FetchCertificate(world.certificateBound)]
    + (if !world.certificateBound then []
       else [WriteFile(ChainPath(cfg.domain), world.chainDownloaded)]
            + (if world.chainDownloaded then [WriteFile(KeyPath(cfg.domain), true)] else []))
  }

  /**
   * `getCertificate()` is called once; the chain file is opened only with a
   * certificate, and the key file only after the chain was downloaded.
   */
  lemma FetchAndWriteCounts(cfg: Config, world: World)
    ensures var tail := FetchAndWrite(cfg, world);
            && Count(tail, IsFetchCertificate) == 1
            && Count(tail, IsOrderEvent) == 0
            && Count(tail, IsWriteFile) == (if !world.certificateBound then 0 else if !world.chainDownloaded then 1 else 2)
            && OrderEventsFor(tail, DomainSet(cfg.domain))
            && (world.certificateBound && world.chainDownloaded ==> tail[|tail| - 2..] == Outputs(cfg.domain))
            && (world.certificateBound && !world.chainDownloaded ==> tail[|tail| - 1] == WriteFile(ChainPath(cfg.domain), false))
  {
    var tail := FetchAndWrite(cfg, world);
    var fetch := FetchCertificate(world.certificateBound);
    var chain := WriteFile(ChainPath(cfg.domain), world.chainDownloaded);
    var key := WriteFile(KeyPath(cfg.domain), true);
    if !world.certificateBound {
      assert tail == [fetch] + [];
      CountCons(fetch, [], IsFetchCertificate);
      CountCons(fetch, [], IsOrderEvent);
      CountCons(fetch, [], IsWriteFile);
    } else if !world.chainDownloaded {
      assert tail == [fetch] + ([chain] + []);
      CountCons(chain, [], IsFetchCertificate);
      CountCons(chain, [], IsOrderEvent);
      CountCons(chain, [], IsWriteFile);
      CountCons(fetch, [chain], IsFetchCertificate);
      CountCons(fetch, [chain], IsOrderEvent);
      CountCons(fetch, [chain], IsWriteFile);
    } else {
      assert tail == [fetch] + ([chain] + ([key] + []));
      CountCons(key, [], IsFetchCertificate);
      CountCons(key, [], IsOrderEvent);
      CountCons(key, [], IsWriteFile);
      CountCons(chain, [key], IsFetchCertificate);
      CountCons(chain, [key], IsOrderEvent);
      CountCons(chain, [key], IsWriteFile);
      CountCons(fetch, [chain, key], IsFetchCertificate);
      CountCons(fetch, [chain, key], IsOrderEvent);
      CountCons(fetch, [chain, key], IsWriteFile);
    }
  }

  /** The events of the order finalisation, in the order it produces them. */
  lemma FinalizeLayout(cfg: Config, world: World)
    ensures var r := Finalize(cfg, world);
            var executed := [ExecuteOrder(DomainSet(cfg.domain), world.executeReply)];
            && (world.executeReply.Failure? ==> r == RunResult(Failed(ExecuteFailed), executed))
            && (world.executeReply.Answer? && (OrderPollOf(world).end.Rejected? || OrderPollOf(world).end.UpdateFailed?) ==>
                  && r.events == executed + OrderPollOf(world).events
                  && r.outcome == Failed(if OrderPollOf(world).end.Rejected? then OrderInvalid else OrderUpdateFailed))
            && (world.executeReply.Answer? && (OrderPollOf(world).end.Reached? || OrderPollOf(world).end.Exhausted?) ==>
                  && r.events == executed + OrderPollOf(world).events + FetchAndWrite(cfg, world)
                  && r.outcome == if !world.certificateBound then Failed(NoCertificate)
                                  else if !world.chainDownloaded then Failed(ChainDownloadFailed)
                                  else Issued)
  {
    if world.executeReply.Answer? {
      var executed := [ExecuteOrder(DomainSet(cfg.domain), world.executeReply)];
      var polled := executed + OrderPollOf(world).events;
      var fetch := FetchCertificate(world.certificateBound);
      var chain := WriteFile(ChainPath(cfg.domain), world.chainDownloaded);
      if !world.certificateBound {
        assert polled + [fetch] == polled + FetchAndWrite(cfg, world);
      } else if !world.chainDownloaded {
        assert polled + [fetch] + [chain] == polled + FetchAndWrite(cfg, world);
      } else {
        assert polled + [fetch] + [chain] + [WriteFile(KeyPath(cfg.domain), true)] == polled + FetchAndWrite(cfg, world);
      }
    }
  }

  /**
   * The order finalisation executes the order once, with the domain set.
   * It writes both files in full, last, exactly when it succeeds, and
   * leaves a partial chain file, and nothing else, when the download fails.
   */
  lemma FinalizeWrites(cfg: Config, world: World)
    ensures var r := Finalize(cfg, world);
            && r.events != [] && r.events[0] == ExecuteOrder(DomainSet(cfg.domain), world.executeReply)
            && Count(r.events, IsOrderEvent) == 1
            && OrderEventsFor(r.events, DomainSet(cfg.domain))
            && WritesMatchOutcome(r.events, cfg.domain, r.outcome)
  {
    FinalizeLayout(cfg, world);
    var r := Finalize(cfg, world);
    var executed := [ExecuteOrder(DomainSet(cfg.domain), world.executeReply)];
    if world.executeReply.Answer? {
      var poll := OrderPollOf(world).events;
      StatusPollEvents(world.orderUpdates, world.executeReply.status, TheOrder, MaxAttempts, 0);
      PollCountsNothingElse(poll, TheOrder);
      AuthorizationEventsCountNothingOuter(poll, DomainSet(cfg.domain));
      OrderEventsForConcat(executed, poll, DomainSet(cfg.domain));
      CountConcat(executed, poll, IsOrderEvent);
      CountConcat(executed, poll, IsWriteFile);
      if !(OrderPollOf(world).end.Rejected? || OrderPollOf(world).end.UpdateFailed?) {
        var tail := FetchAndWrite(cfg, world);
        FetchAndWriteCounts(cfg, world);
        OrderEventsForConcat(executed + poll, tail, DomainSet(cfg.domain));
        CountConcat(executed + poll, tail, IsOrderEvent);
        assert WritesMatchOutcome(tail, cfg.domain, r.outcome);
        WritesAfterNone(executed + poll, tail, cfg.domain, r.outcome);
      }
    }
  }

  /**
   * An order seen INVALID inside the poll stops the run before the
   * certificate is fetched and before anything is written.
   */
  lemma OrderInvalidStopsBeforeWrites(cfg: Config, world: World)
    ensures var r := Finalize(cfg, world);
            r.outcome == Failed(OrderInvalid) ==>
              && Count(r.events, IsFetchCertificate) == 0
              && Count(r.events, IsWriteFile) == 0
              && ReportsInvalid(r.events[|r.events| - 1])
  {
    FinalizeLayout(cfg, world);
    var r := Finalize(cfg, world);
    if r.outcome == Failed(OrderInvalid) {
      var executed := [ExecuteOrder(DomainSet(cfg.domain), world.executeReply)];
      var poll := OrderPollOf(world);
      StatusPollEvents(world.orderUpdates, world.executeReply.status, TheOrder, MaxAttempts, 0);
      StatusPollOutcome(world.orderUpdates, world.executeReply.status, TheOrder, MaxAttempts, 0);
      PollCountsNothingElse(poll.events, TheOrder);
      CountConcat(executed, poll.events, IsFetchCertificate);
      CountConcat(executed, poll.events, IsWriteFile);
      if poll.events != [] {
        assert r.events[|r.events| - 1] == poll.events[|poll.events| - 1];
      }
    }
  }

  /**
   * Running out of order-poll attempts is not an error: with no VALID check
   * after the loop, the certificate is fetched all the same.
   */
  lemma OrderExhaustionFetches(cfg: Config, world: World)
    requires world.executeReply.Answer? && OrderPollOf(world).end.Exhausted?
    ensures var r := Finalize(cfg, world);
            && Count(r.events, IsFetchCertificate) == 1
            && r.outcome == if !world.certificateBound then Failed(NoCertificate)
                            else if !world.chainDownloaded then Failed(ChainDownloadFailed)
                            else Issued
  {
    FinalizeLayout(cfg, world);
    var executed := [ExecuteOrder(DomainSet(cfg.domain), world.executeReply)];
    var poll := OrderPollOf(world).events;
    var tail := FetchAndWrite(cfg, world);
    StatusPollEvents(world.orderUpdates, world.executeReply.status, TheOrder, MaxAttempts, 0);
    PollCountsNothingElse(poll, TheOrder);
    FetchAndWriteCounts(cfg, world);
    CountConcat(executed, poll, IsFetchCertificate);
    CountConcat(executed + poll, tail, IsFetchCertificate);
  }

  /** The first three events of a run that gets its account and its order. */
  function Head(cfg: Config): seq<Event> {
    [OpenSession(SessionUri(cfg.stage)), CreateAccount(true), CreateOrder(DomainSet(cfg.domain), true)]
  }

  /** The events of a run that gets its account and its order, in the order it produces them. */
  lemma RunLayout(args: Arguments, world: World)
    requires CheckOptions(args).Proceed? && world.accountCreated && world.order.Some?
    ensures var cfg := CheckOptions(args).config;
            var auths := AuthorizeAll(cfg, world.order.value);
            var r := Run(args, world);
            && (auths.failure.Some? ==> r == RunResult(Failed(auths.failure.value), Head(cfg) + auths.events))
            && (auths.failure.None? ==>
                  r == RunResult(Finalize(cfg, world).outcome, Head(cfg) + auths.events + Finalize(cfg, world).events))
  {
    var cfg := CheckOptions(args).config;
    assert [OpenSession(SessionUri(cfg.stage)), CreateAccount(true)] + [CreateOrder(DomainSet(cfg.domain), true)] == Head(cfg);
  }

  lemma HeadCounts(cfg: Config)
    ensures Count(Head(cfg), IsOrderEvent) == 1 && Count(Head(cfg), IsFetchCertificate) == 0 && Count(Head(cfg), IsWriteFile) == 0
    ensures OrderEventsFor(Head(cfg), DomainSet(cfg.domain))
  {
    var h := Head(cfg);
    assert h == [h[0]] + ([h[1]] + [h[2]]);
    assert [h[2]] == [h[2]] + [];
    CountCons(h[2], [], IsOrderEvent);
    CountCons(h[2], [], IsFetchCertificate);
    CountCons(h[2], [], IsWriteFile);
    CountCons(h[1], [h[2]], IsOrderEvent);
    CountCons(h[1], [h[2]], IsFetchCertificate);
    CountCons(h[1], [h[2]], IsWriteFile);
    CountCons(h[0], [h[1]] + [h[2]], IsOrderEvent);
    CountCons(h[0], [h[1]] + [h[2]], IsFetchCertificate);
    CountCons(h[0], [h[1]] + [h[2]], IsWriteFile);
  }

  /**
   * Fail-fast at the level of the run: once an authorization throws, the
   * run ends with its failure; the order is not executed, no certificate is
   * fetched and nothing is written.
   */
  lemma RunFailFast(args: Arguments, world: World)
    requires CheckOptions(args).Proceed? && world.accountCreated && world.order.Some?
    requires exists j :: 0 <= j < |world.order.value| && !Proceeds(CheckOptions(args).config, world.order.value[j])
    ensures var cfg := CheckOptions(args).config;
            var r := Run(args, world);
            && r.outcome.Failed?
            && (exists j :: FailsFirstAt(cfg, world.order.value, j)
                            && r.outcome.failure == Authorize(cfg, world.order.value[j]).end.failure)
            && Count(r.events, IsOrderEvent) == 1
            && Count(r.events, IsFetchCertificate) == 0
            && Count(r.events, IsWriteFile) == 0
  {
    var cfg := CheckOptions(args).config;
    var auths := AuthorizeAll(cfg, world.order.value);
    AuthorizeAllFailFast(cfg, world.order.value);
    RunLayout(args, world);
    AuthorizeAllEventsOnly(cfg, world.order.value);
    AuthorizationEventsCountNothingOuter(auths.events, DomainSet(cfg.domain));
    HeadCounts(cfg);
    CountConcat(Head(cfg), auths.events, IsOrderEvent);
    CountConcat(Head(cfg), auths.events, IsFetchCertificate);
    CountConcat(Head(cfg), auths.events, IsWriteFile);
  }

  /** Calls that write nothing, made before the finalisation, leave its account of the files intact. */
  lemma WritesAfterNone(front: seq<Event>, tail: seq<Event>, domain: string, outcome: RunOutcome)
    requires Count(front, IsWriteFile) == 0 && WritesMatchOutcome(tail, domain, outcome)
    ensures WritesMatchOutcome(front + tail, domain, outcome)
  {
    CountConcat(front, tail, IsWriteFile);
    var es := front + tail;
    if outcome.Issued? {
      assert es[|es| - 2..] == tail[|tail| - 2..];
    }
    if outcome == Failed(ChainDownloadFailed) {
      assert es[|es| - 1] == tail[|tail| - 1];
    }
  }

  /** No authorization fails with a download failure: that failure belongs to the finalisation. */
  lemma {:induction false} AuthorizeAllNeverFailsDownload(cfg: Config, scripts: seq<AuthScript>)
    ensures AuthorizeAll(cfg, scripts).failure != Some(ChainDownloadFailed)
    decreases |scripts|
  {
    if scripts != [] {
      AuthorizeAllNeverFailsDownload(cfg, scripts[1..]);
    }
  }

  /** Writing the output files, for a run that gets its account and its order. */
  lemma RunWritesAfterOrder(args: Arguments, world: World)
    requires CheckOptions(args).Proceed? && world.accountCreated && world.order.Some?
    ensures var r := Run(args, world);
            WritesMatchOutcome(r.events, CheckOptions(args).config.domain, r.outcome)
  {
    var cfg := CheckOptions(args).config;
    var auths := AuthorizeAll(cfg, world.order.value);
    RunLayout(args, world);
    AuthorizeAllEventsOnly(cfg, world.order.value);
    AuthorizationEventsCountNothingOuter(auths.events, DomainSet(cfg.domain));
    HeadCounts(cfg);
    CountConcat(Head(cfg), auths.events, IsWriteFile);
    if auths.failure.None? {
      FinalizeWrites(cfg, world);
      WritesAfterNone(Head(cfg) + auths.events, Finalize(cfg, world).events, cfg.domain, Finalize(cfg, world).outcome);
    } else {
      AuthorizeAllNeverFailsDownload(cfg, world.order.value);
    }
  }

  /**
   * Both files, `certificate/<domain>/domain-chain.crt` and
   * `certificate/<domain>/domain.key`, are written in full exactly when the
   * run issues a certificate; a failed chain download leaves the chain file
   * alone, partial; no other run writes anything.
   */
  lemma RunWrites(args: Arguments, world: World)
    ensures var r := Run(args, world);
            && (r.outcome.Issued? || r.outcome == Failed(ChainDownloadFailed) ==> CheckOptions(args).Proceed?)
            && (CheckOptions(args).Proceed? ==> WritesMatchOutcome(r.events, CheckOptions(args).config.domain, r.outcome))
            && (!CheckOptions(args).Proceed? ==> Count(r.events, IsWriteFile) == 0)
  {
    if CheckOptions(args).Proceed? {
      var cfg := CheckOptions(args).config;
      var session := [OpenSession(SessionUri(cfg.stage)), CreateAccount(world.accountCreated)];
      if !world.accountCreated {
        CountZero(session, IsWriteFile);
      } else if world.order.None? {
        CountZero(session + [CreateOrder(DomainSet(cfg.domain), false)], IsWriteFile);
      } else {
        RunWritesAfterOrder(args, world);
      }
    }
  }

  /**
   * The order is created for `[domain, "*." + domain]`, and the CSR that
   * executes it names the same set; a run that issues a certificate does
   * both exactly once.
   */
  lemma RunDomainSet(args: Arguments, world: World)
    requires CheckOptions(args).Proceed?
    ensures var d := CheckOptions(args).config.domain;
            var r := Run(args, world);
            && d == args["domain"][0]
            && OrderEventsFor(r.events, DomainSet(d))
            && (world.accountCreated ==> |r.events| > 2 && r.events[2] == CreateOrder(DomainSet(d), world.order.Some?))
            && (r.outcome.Issued? ==> Count(r.events, IsOrderEvent) == 2)
  {
    var cfg := CheckOptions(args).config;
    var domains := DomainSet(cfg.domain);
    var r := Run(args, world);
    if !world.accountCreated {
      assert !IsOrderEvent(r.events[0]) && !IsOrderEvent(r.events[1]);
    } else if world.order.None? {
      assert r.events[2] == CreateOrder(domains, false);
    } else {
      var auths := AuthorizeAll(cfg, world.order.value);
      RunLayout(args, world);
      AuthorizeAllEventsOnly(cfg, world.order.value);
      AuthorizationEventsCountNothingOuter(auths.events, domains);
      HeadCounts(cfg);
      OrderEventsForConcat(Head(cfg), auths.events, domains);
      CountConcat(Head(cfg), auths.events, IsOrderEvent);
      if auths.failure.None? {
        var fin := Finalize(cfg, world);
        FinalizeWrites(cfg, world);
        OrderEventsForConcat(Head(cfg) + auths.events, fin.events, domains);
        CountConcat(Head(cfg) + auths.events, fin.events, IsOrderEvent);
      }
    }
  }
}
