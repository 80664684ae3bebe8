/**
 * The bounded waits of the orchestrator. `run` has three loops of the same
 * kind: a countdown `attempts-- > 0` from 50 guards a re-check of some
 * condition, with a sleep between checks. The DNS propagation wait evaluates
 * its predicate before the countdown; the challenge and order polls test the
 * current status against VALID before the countdown, abort on INVALID, then
 * sleep and `update()`. Each wait is a specification function on an
 * attempt budget and the index of the next input, and a method with the
 * source's loop proved equal to it. Sleeps are counted, not timed.
 */
module Polling {
  import opened Wrappers
  import opened Acme
  import opened Events
  import DnsLookupHelper

  /** The initial value of every `attempts` counter. */
  const MaxAttempts: nat := 50
  /** Pause between two propagation lookups. */
  const DnsRetryMillis: nat := 30000
  /** Pause before each `update()` of a challenge or the order. */
  const StatusRetryMillis: nat := 3000

  datatype WaitResult = WaitResult(visible: bool, events: seq<Event>)

  /**
   * The propagation wait with `attempts` left and `dns(k)` the resolver seen
   * by the next lookup: look up; stop on a match or when the countdown is
   * already at zero; otherwise sleep and look up again.
   */
  function PropagationWait(domain: string, digest: string, dns: nat -> DnsLookupHelper.Query -> DnsLookupHelper.LookupOutcome,
                           attempts: nat, k: nat): WaitResult
    decreases attempts
  {
    var visible := DnsLookupHelper.IsValid(domain, digest, dns(k));
    var probe := [DnsQuery(DnsLookupHelper.ChallengeQuery(domain), visible)];
    if visible || attempts == 0 then WaitResult(visible, probe)
    else
      var rest := PropagationWait(domain, digest, dns, attempts - 1, k + 1);
      WaitResult(rest.visible, probe + [Sleep(DnsRetryMillis)] + rest.events)
  }

  /**
   * The propagation wait as its loop sees it: `done` already recorded, its
   * last lookup having found `visible`, the rest of the wait still to come.
   */
  ghost function PropagationWaitAfter(done: seq<Event>, visible: bool, domain: string, digest: string,
                                      dns: nat -> DnsLookupHelper.Query -> DnsLookupHelper.LookupOutcome,
                                      attempts: nat, k: nat): WaitResult
    decreases attempts
  {
    if visible || attempts == 0 then WaitResult(visible, done)
    else
      var next := DnsLookupHelper.IsValid(domain, digest, dns(k + 1));
      PropagationWaitAfter(done + [Sleep(DnsRetryMillis), DnsQuery(DnsLookupHelper.ChallengeQuery(domain), next)], next,
                           domain, digest, dns, attempts - 1, k + 1)
  }

  /** One iteration of the propagation loop: sleep, look up again, one attempt less. */
  lemma PropagationWaitAfterStep(done: seq<Event>, visible: bool, domain: string, digest: string,
                                 dns: nat -> DnsLookupHelper.Query -> DnsLookupHelper.LookupOutcome,
                                 attempts: nat, k: nat, next: bool)
    requires !visible && attempts > 0
    requires next == DnsLookupHelper.IsValid(domain, digest, dns(k + 1))
    ensures PropagationWaitAfter(done, visible, domain, digest, dns, attempts, k)
            == PropagationWaitAfter(done + [Sleep(DnsRetryMillis), DnsQuery(DnsLookupHelper.ChallengeQuery(domain), next)], next,
                                    domain, digest, dns, attempts - 1, k + 1)
  {
  }

  lemma {:induction false} PropagationWaitAfterIs(done: seq<Event>, domain: string, digest: string,
                                                  dns: nat -> DnsLookupHelper.Query -> DnsLookupHelper.LookupOutcome,
                                                  attempts: nat, k: nat)
    ensures var visible := DnsLookupHelper.IsValid(domain, digest, dns(k));
            var w := PropagationWait(domain, digest, dns, attempts, k);
            PropagationWaitAfter(done + [DnsQuery(DnsLookupHelper.ChallengeQuery(domain), visible)], visible,
                                 domain, digest, dns, attempts, k)
              == WaitResult(w.visible, done + w.events)
    decreases attempts
  {
    var visible := DnsLookupHelper.IsValid(domain, digest, dns(k));
    var probe := DnsQuery(DnsLookupHelper.ChallengeQuery(domain), visible);
    if !visible && attempts != 0 {
      var next := DnsLookupHelper.IsValid(domain, digest, dns(k + 1));
      var rest := PropagationWait(domain, digest, dns, attempts - 1, k + 1);
      var sleep := Sleep(DnsRetryMillis);
      PropagationWaitAfterIs(done + [probe, sleep], domain, digest, dns, attempts - 1, k + 1);
      assert done + [probe] + [sleep, DnsQuery(DnsLookupHelper.ChallengeQuery(domain), next)]
          == done + [probe, sleep] + [DnsQuery(DnsLookupHelper.ChallengeQuery(domain), next)];
      assert done + [probe, sleep] + rest.events == done + ([probe] + [sleep] + rest.events);
    }
  }

  /** One retry of the propagation loop: sleep 30 s, look the challenge record up again, one attempt less. */
  method Retry(events: seq<Event>, visible: bool, domain: string, digest: string,
               dns: nat -> DnsLookupHelper.Query -> DnsLookupHelper.LookupOutcome, attempts: nat, k: nat)
    returns (events': seq<Event>, visible': bool, attempts': nat, k': nat)
    requires !visible && attempts > 0
    ensures attempts' == attempts - 1 && k' == k + 1
    ensures visible' == DnsLookupHelper.IsValid(domain, digest, dns(k + 1))
    ensures events' == events + [Sleep(DnsRetryMillis), DnsQuery(DnsLookupHelper.ChallengeQuery(domain), visible')]
    ensures PropagationWaitAfter(events', visible', domain, digest, dns, attempts', k')
            == PropagationWaitAfter(events, visible, domain, digest, dns, attempts, k)
  {
    visible' := DnsLookupHelper.IsValid(domain, digest, dns(k + 1));
    PropagationWaitAfterStep(events, visible, domain, digest, dns, attempts, k, visible');
    events' := events + [Sleep(DnsRetryMillis), DnsQuery(DnsLookupHelper.ChallengeQuery(domain), visible')];
    attempts' := attempts - 1;
    k' := k + 1;
  }

  /**
   * `while (!isValid(domain, digest) && attempts-- > 0) sleep(30 s)`; the
   * decrement made by the last, failing test is not observable.
   */
  method WaitForPropagation(domain: string, digest: string, dns: nat -> DnsLookupHelper.Query -> DnsLookupHelper.LookupOutcome)
    returns (visible: bool, events: seq<Event>)
    ensures WaitResult(visible, events) == PropagationWait(domain, digest, dns, MaxAttempts, 0)
  {
    var attempts: nat := MaxAttempts;
    var k: nat := 0;
    visible := DnsLookupHelper.IsValid(domain, digest, dns(k));
    events := [DnsQuery(DnsLookupHelper.ChallengeQuery(domain), visible)];
    ghost var whole := PropagationWaitAfter(events, visible, domain, digest, dns, attempts, k);
    PropagationWaitAfterIs([], domain, digest, dns, attempts, k);
    assert [] + [DnsQuery(DnsLookupHelper.ChallengeQuery(domain), visible)] == events;
    while !visible && attempts > 0
      invariant whole == PropagationWaitAfter(events, visible, domain, digest, dns, attempts, k)
    {
      events, visible, attempts, k := Retry(events, visible, domain, digest, dns, attempts, k);
    }
  }

  /** Why a status poll's loop ended. */
  datatype PollEnd =
    | Reached               // the status is VALID
    | Rejected              // INVALID at the top of an iteration: the source throws
    | Exhausted(last: Status) // the countdown ran out with the status not VALID
    | UpdateFailed          // `update()` threw

  datatype PollResult = PollResult(end: PollEnd, events: seq<Event>)

  /**
   * A status poll of `target` with current status `status`, `attempts` left
   * and `updates(k)` the reply to the next `update()`.
   */
  function StatusPoll(updates: nat -> AcmeReply, status: Status, target: PollTarget, attempts: nat, k: nat): PollResult
    decreases attempts
  {
    if status == Valid then PollResult(Reached, [])
    else if attempts == 0 then PollResult(Exhausted(status), [])
    else if status == Invalid then PollResult(Rejected, [])
    else
      var reply := updates(k);
      var step := [Sleep(StatusRetryMillis), StatusUpdate(target, reply)];
      match reply
      case Failure => PollResult(UpdateFailed, step)
      case Answer(next) =>
        var rest := StatusPoll(updates, next, target, attempts - 1, k + 1);
        PollResult(rest.end, step + rest.events)
  }

  /**
   * The status poll as its loop sees it: `done` already recorded, the rest
   * of the poll still to come.
   */
  ghost function StatusPollAfter(done: seq<Event>, updates: nat -> AcmeReply, status: Status, target: PollTarget,
                                 attempts: nat, k: nat): PollResult
    decreases attempts
  {
    if status == Valid then PollResult(Reached, done)
    else if attempts == 0 then PollResult(Exhausted(status), done)
    else if status == Invalid then PollResult(Rejected, done)
    else
      var reply := updates(k);
      var stepped := done + [Sleep(StatusRetryMillis), StatusUpdate(target, reply)];
      match reply
      case Failure => PollResult(UpdateFailed, stepped)
      case Answer(next) => StatusPollAfter(stepped, updates, next, target, attempts - 1, k + 1)
  }

  lemma {:induction false} StatusPollAfterIs(done: seq<Event>, updates: nat -> AcmeReply, status: Status, target: PollTarget,
                                             attempts: nat, k: nat)
    ensures var p := StatusPoll(updates, status, target, attempts, k);
            StatusPollAfter(done, updates, status, target, attempts, k) == PollResult(p.end, done + p.events)
    decreases attempts
  {
    if status != Valid && attempts != 0 && status != Invalid {
      var reply := updates(k);
      var step := [Sleep(StatusRetryMillis), StatusUpdate(target, reply)];
      if reply.Answer? {
        var rest := StatusPoll(updates, reply.status, target, attempts - 1, k + 1);
        StatusPollAfterIs(done + step, updates, reply.status, target, attempts - 1, k + 1);
        assert done + step + rest.events == done + (step + rest.events);
      }
    } else {
      assert done + [] == done;
    }
  }

  /**
   * One iteration of the status loop: INVALID throws; otherwise sleep 3 s
   * and call `update()`, which either throws or answers the next status.
   * `stop` is how the poll ends when the iteration ends it.
   */
  method PollOnce(events: seq<Event>, updates: nat -> AcmeReply, status: Status, target: PollTarget, attempts: nat, k: nat)
    returns (events': seq<Event>, status': Status, attempts': nat, k': nat, stop: Option<PollEnd>)
    requires status != Valid && attempts > 0
    ensures attempts' == attempts - 1
    ensures stop.Some? ==> StatusPollAfter(events, updates, status, target, attempts, k) == PollResult(stop.value, events')
    ensures stop.None? ==> StatusPollAfter(events', updates, status', target, attempts', k')
                           == StatusPollAfter(events, updates, status, target, attempts, k)
  {
    status', attempts', k' := status, attempts - 1, k;
    if status == Invalid {
      return events, status', attempts', k', Some(Rejected);
    }
    var reply := updates(k);
    events' := events + [Sleep(StatusRetryMillis), StatusUpdate(target, reply)];
    if reply.Failure? {
      return events', status', attempts', k', Some(UpdateFailed);
    }
    status', k', stop := reply.status, k + 1, None;
  }

  /**
   * `while (x.getStatus() != VALID && attempts-- > 0) { if (x.getStatus() == INVALID) throw;
   * sleep(3 s); x.update(); }` for the challenge and for the order; the
   * decrement made by the last, failing test is not observable.
   */
  method PollStatus(updates: nat -> AcmeReply, status: Status, target: PollTarget)
    returns (end: PollEnd, events: seq<Event>)
    ensures PollResult(end, events) == StatusPoll(updates, status, target, MaxAttempts, 0)
  {
    var current := status;
    var attempts: nat := MaxAttempts;
    var k: nat := 0;
    events := [];
    ghost var whole := StatusPollAfter(events, updates, current, target, attempts, k);
    StatusPollAfterIs(events, updates, current, target, attempts, k);
    assert [] + StatusPoll(updates, current, target, attempts, k).events == StatusPoll(updates, current, target, attempts, k).events;
    while current != Valid && attempts > 0
      invariant whole == StatusPollAfter(events, updates, current, target, attempts, k)
    {
      var stop;
      events, current, attempts, k, stop := PollOnce(events, updates, current, target, attempts, k);
      if stop.Some? {
        return stop.value, events;
      }
    }
    end := if current == Valid then Reached else Exhausted(current);
  }

  /** Events a propagation wait may produce: lookups of `query` and 30 s sleeps. */
  predicate OnlyLookupsAndSleeps(events: seq<Event>, query: DnsLookupHelper.Query) {
    forall i :: 0 <= i < |events| ==>
      events[i] == Sleep(DnsRetryMillis) || (events[i].DnsQuery? && events[i].query == query)
  }

  /** The propagation wait only looks up the challenge name and sleeps. */
  lemma {:induction false} PropagationWaitEvents(domain: string, digest: string,
                                                 dns: nat -> DnsLookupHelper.Query -> DnsLookupHelper.LookupOutcome,
                                                 attempts: nat, k: nat)
    ensures OnlyLookupsAndSleeps(PropagationWait(domain, digest, dns, attempts, k).events, DnsLookupHelper.ChallengeQuery(domain))
    decreases attempts
  {
    var visible := DnsLookupHelper.IsValid(domain, digest, dns(k));
    var r := PropagationWait(domain, digest, dns, attempts, k);
    if !visible && attempts != 0 {
      var step := [DnsQuery(DnsLookupHelper.ChallengeQuery(domain), visible), Sleep(DnsRetryMillis)];
      var rest := PropagationWait(domain, digest, dns, attempts - 1, k + 1);
      assert r == WaitResult(rest.visible, step + rest.events);
      PropagationWaitEvents(domain, digest, dns, attempts - 1, k + 1);
      forall i | 2 <= i < |r.events|
        ensures r.events[i] == Sleep(DnsRetryMillis) || (r.events[i].DnsQuery? && r.events[i].query == DnsLookupHelper.ChallengeQuery(domain))
      {
        assert r.events[i] == rest.events[i - 2];
      }
    } else {
      assert r.events == [DnsQuery(DnsLookupHelper.ChallengeQuery(domain), visible)];
    }
  }

  /**
   * The propagation wait looks up at most `attempts + 1` times, sleeps once
   * between two lookups, and gives up without a match only after its last
   * attempt.
   */
  lemma {:induction false} PropagationWaitCounts(domain: string, digest: string,
                                                 dns: nat -> DnsLookupHelper.Query -> DnsLookupHelper.LookupOutcome,
                                                 attempts: nat, k: nat)
    ensures var r := PropagationWait(domain, digest, dns, attempts, k);
            var n := Count(r.events, IsDnsQuery);
            && 1 <= n <= attempts + 1
            && Count(r.events, IsSleep) == n - 1
            && (!r.visible ==> n == attempts + 1)
    decreases attempts
  {
    var visible := DnsLookupHelper.IsValid(domain, digest, dns(k));
    if !visible && attempts != 0 {
      var step := [DnsQuery(DnsLookupHelper.ChallengeQuery(domain), visible), Sleep(DnsRetryMillis)];
      var rest := PropagationWait(domain, digest, dns, attempts - 1, k + 1);
      assert PropagationWait(domain, digest, dns, attempts, k) == WaitResult(rest.visible, step + rest.events);
      PropagationWaitCounts(domain, digest, dns, attempts - 1, k + 1);
      CountConcat(step, rest.events, IsDnsQuery);
      CountConcat(step, rest.events, IsSleep);
    }
  }

  /** No lookup with an index in [from, to) matched. */
  predicate NoMatchBefore(domain: string, digest: string, dns: nat -> DnsLookupHelper.Query -> DnsLookupHelper.LookupOutcome,
                          from: nat, to: int) {
    forall j | from <= j < to :: !DnsLookupHelper.IsValid(domain, digest, dns(j))
  }

  /** A lookup followed by a sleep counts one of each. */
  lemma LookupAndSleepCounts(probe: Event, sleep: Event)
    requires probe.DnsQuery? && sleep.Sleep?
    ensures Count([probe, sleep], IsDnsQuery) == 1 && Count([probe, sleep], IsSleep) == 1
  {
    assert [probe, sleep][1..][1..] == [];
  }

  /** The lookups made by a propagation wait: one per attempt used, plus the first. */
  function LookupsMade(domain: string, digest: string, dns: nat -> DnsLookupHelper.Query -> DnsLookupHelper.LookupOutcome,
                       attempts: nat, k: nat): nat {
    Count(PropagationWait(domain, digest, dns, attempts, k).events, IsDnsQuery)
  }

  /** Counting the lookups of a wait that goes on: the first, and those of the rest. */
  lemma LookupsMadeStep(domain: string, digest: string, dns: nat -> DnsLookupHelper.Query -> DnsLookupHelper.LookupOutcome,
                        attempts: nat, k: nat)
    requires !DnsLookupHelper.IsValid(domain, digest, dns(k)) && attempts > 0
    ensures LookupsMade(domain, digest, dns, attempts, k) == 1 + LookupsMade(domain, digest, dns, attempts - 1, k + 1)
    ensures PropagationWait(domain, digest, dns, attempts, k).visible == PropagationWait(domain, digest, dns, attempts - 1, k + 1).visible
  {
    var step := [DnsQuery(DnsLookupHelper.ChallengeQuery(domain), false), Sleep(DnsRetryMillis)];
    var rest := PropagationWait(domain, digest, dns, attempts - 1, k + 1);
    assert PropagationWait(domain, digest, dns, attempts, k) == WaitResult(rest.visible, step + rest.events);
    LookupAndSleepCounts(step[0], step[1]);
    CountConcat(step, rest.events, IsDnsQuery);
  }

  /** The propagation wait stops at the first lookup that matches: every lookup before the last failed. */
  lemma {:induction false} PropagationWaitStopsAtFirstMatch(domain: string, digest: string,
                                                            dns: nat -> DnsLookupHelper.Query -> DnsLookupHelper.LookupOutcome,
                                                            attempts: nat, k: nat)
    ensures LookupsMade(domain, digest, dns, attempts, k) >= 1
    ensures NoMatchBefore(domain, digest, dns, k, k + LookupsMade(domain, digest, dns, attempts, k) - 1)
    decreases attempts
  {
    if !DnsLookupHelper.IsValid(domain, digest, dns(k)) && attempts != 0 {
      LookupsMadeStep(domain, digest, dns, attempts, k);
      PropagationWaitStopsAtFirstMatch(domain, digest, dns, attempts - 1, k + 1);
    } else {
      assert PropagationWait(domain, digest, dns, attempts, k).events == [DnsQuery(DnsLookupHelper.ChallengeQuery(domain), DnsLookupHelper.IsValid(domain, digest, dns(k)))];
    }
  }

  /** The propagation wait reports what its last lookup found. */
  lemma {:induction false} PropagationWaitReportsLastLookup(domain: string, digest: string,
                                                            dns: nat -> DnsLookupHelper.Query -> DnsLookupHelper.LookupOutcome,
                                                            attempts: nat, k: nat)
    ensures LookupsMade(domain, digest, dns, attempts, k) >= 1
    ensures PropagationWait(domain, digest, dns, attempts, k).visible
            == DnsLookupHelper.IsValid(domain, digest, dns(k + LookupsMade(domain, digest, dns, attempts, k) - 1))
    decreases attempts
  {
    if !DnsLookupHelper.IsValid(domain, digest, dns(k)) && attempts != 0 {
      LookupsMadeStep(domain, digest, dns, attempts, k);
      PropagationWaitReportsLastLookup(domain, digest, dns, attempts - 1, k + 1);
    } else {
      assert PropagationWait(domain, digest, dns, attempts, k).events == [DnsQuery(DnsLookupHelper.ChallengeQuery(domain), DnsLookupHelper.IsValid(domain, digest, dns(k)))];
    }
  }

  /** Events a status poll of `target` may produce: 3 s sleeps and updates of `target`. */
  predicate OnlyUpdatesAndSleeps(events: seq<Event>, target: PollTarget) {
    forall i :: 0 <= i < |events| ==>
      events[i] == Sleep(StatusRetryMillis) || (events[i].StatusUpdate? && events[i].target == target)
  }

  /** A sleep followed by an update counts one of each. */
  lemma SleepAndUpdateCounts(sleep: Event, update: Event)
    requires sleep.Sleep? && update.StatusUpdate?
    ensures Count([sleep, update], IsSleep) == 1 && Count([sleep, update], IsStatusUpdate) == 1
  {
    assert [sleep, update][1..][1..] == [];
  }

  /** The last event of a concatenation: the second part's, unless it is empty. */
  lemma LastOfConcat(a: seq<Event>, b: seq<Event>)
    requires a != []
    ensures (a + b)[|a + b| - 1] == if b == [] then a[|a| - 1] else b[|b| - 1]
  {
  }

  /** After an answered update, the status seen last is the answer's unless a later update follows. */
  lemma LastSeenAfterRetry(status: Status, target: PollTarget, reply: AcmeReply, rest: seq<Event>)
    requires reply.Answer?
    requires rest != [] ==> rest[|rest| - 1].StatusUpdate?
    ensures LastSeen(status, [Sleep(StatusRetryMillis), StatusUpdate(target, reply)] + rest) == LastSeen(reply.status, rest)
  {
    LastOfConcat([Sleep(StatusRetryMillis), StatusUpdate(target, reply)], rest);
  }

  /** An iteration whose `update()` answered: one sleep, one update, and the poll goes on from the answer. */
  lemma StatusPollRetries(updates: nat -> AcmeReply, status: Status, target: PollTarget, attempts: nat, k: nat)
    requires status != Valid && attempts != 0 && status != Invalid && updates(k).Answer?
    ensures var r := StatusPoll(updates, status, target, attempts, k);
            var rest := StatusPoll(updates, updates(k).status, target, attempts - 1, k + 1);
            && r.end == rest.end
            && r.events == [Sleep(StatusRetryMillis), StatusUpdate(target, updates(k))] + rest.events
  {
  }

  /** Counting the events of an answered iteration: one sleep and one update more than the rest of the poll. */
  lemma RetryCounts(reply: AcmeReply, target: PollTarget, rest: seq<Event>)
    ensures var es := [Sleep(StatusRetryMillis), StatusUpdate(target, reply)] + rest;
            && Count(es, IsStatusUpdate) == 1 + Count(rest, IsStatusUpdate)
            && Count(es, IsSleep) == 1 + Count(rest, IsSleep)
  {
    var step := [Sleep(StatusRetryMillis), StatusUpdate(target, reply)];
    SleepAndUpdateCounts(step[0], step[1]);
    CountConcat(step, rest, IsStatusUpdate);
    CountConcat(step, rest, IsSleep);
  }

  /** An iteration whose `update()` threw: one sleep, one update, and the poll ends. */
  lemma StatusPollUpdateThrows(updates: nat -> AcmeReply, status: Status, target: PollTarget, attempts: nat, k: nat)
    requires status != Valid && attempts != 0 && status != Invalid && updates(k).Failure?
    ensures var r := StatusPoll(updates, status, target, attempts, k);
            && r == PollResult(UpdateFailed, [Sleep(StatusRetryMillis), StatusUpdate(target, Failure)])
  {
  }

  lemma OnlyUpdatesAndSleepsConcat(a: seq<Event>, b: seq<Event>, target: PollTarget)
    requires OnlyUpdatesAndSleeps(a, target) && OnlyUpdatesAndSleeps(b, target)
    ensures OnlyUpdatesAndSleeps(a + b, target)
  {
    forall i | |a| <= i < |a + b|
      ensures (a + b)[i] == Sleep(StatusRetryMillis) || ((a + b)[i].StatusUpdate? && (a + b)[i].target == target)
    {
      assert (a + b)[i] == b[i - |a|];
    }
  }

  /** A status poll only sleeps and updates its target. */
  lemma {:induction false} StatusPollOnlyUpdatesAndSleeps(updates: nat -> AcmeReply, status: Status, target: PollTarget, attempts: nat, k: nat)
    ensures OnlyUpdatesAndSleeps(StatusPoll(updates, status, target, attempts, k).events, target)
    decreases attempts
  {
    if status != Valid && attempts != 0 && status != Invalid {
      if updates(k).Answer? {
        var rest := StatusPoll(updates, updates(k).status, target, attempts - 1, k + 1);
        StatusPollRetries(updates, status, target, attempts, k);
        StatusPollOnlyUpdatesAndSleeps(updates, updates(k).status, target, attempts - 1, k + 1);
        OnlyUpdatesAndSleepsConcat([Sleep(StatusRetryMillis), StatusUpdate(target, updates(k))], rest.events, target);
      } else {
        StatusPollUpdateThrows(updates, status, target, attempts, k);
      }
    }
  }

  /** The last event of a status poll, if it made any, is an update. */
  lemma {:induction false} StatusPollEndsWithUpdate(updates: nat -> AcmeReply, status: Status, target: PollTarget, attempts: nat, k: nat)
    ensures var es := StatusPoll(updates, status, target, attempts, k).events;
            es != [] ==> es[|es| - 1].StatusUpdate?
    decreases attempts
  {
    if status != Valid && attempts != 0 && status != Invalid {
      if updates(k).Answer? {
        var rest := StatusPoll(updates, updates(k).status, target, attempts - 1, k + 1);
        StatusPollRetries(updates, status, target, attempts, k);
        StatusPollEndsWithUpdate(updates, updates(k).status, target, attempts - 1, k + 1);
        LastOfConcat([Sleep(StatusRetryMillis), StatusUpdate(target, updates(k))], rest.events);
      } else {
        StatusPollUpdateThrows(updates, status, target, attempts, k);
      }
    }
  }

  /** A status poll only sleeps and updates its target, and its last event, if any, is an update. */
  lemma StatusPollEvents(updates: nat -> AcmeReply, status: Status, target: PollTarget, attempts: nat, k: nat)
    ensures OnlyUpdatesAndSleeps(StatusPoll(updates, status, target, attempts, k).events, target)
    ensures var es := StatusPoll(updates, status, target, attempts, k).events;
            es != [] ==> es[|es| - 1].StatusUpdate?
  {
    StatusPollOnlyUpdatesAndSleeps(updates, status, target, attempts, k);
    StatusPollEndsWithUpdate(updates, status, target, attempts, k);
  }

  /** Events in pairs: a 3 s sleep at every even position, an update at every odd one. */
  predicate SleepUpdatePairs(events: seq<Event>) {
    && |events| % 2 == 0
    && forall i | 0 <= i < |events| ::
         if i % 2 == 0 then events[i] == Sleep(StatusRetryMillis) else events[i].StatusUpdate?
  }

  /** A status poll sleeps exactly once before each call to `update()`, and at no other time. */
  lemma {:induction false} StatusPollSleepsBeforeUpdates(updates: nat -> AcmeReply, status: Status, target: PollTarget, attempts: nat, k: nat)
    ensures var es := StatusPoll(updates, status, target, attempts, k).events;
            && SleepUpdatePairs(es)
            && Count(es, IsSleep) == Count(es, IsStatusUpdate)
    decreases attempts
  {
    if status != Valid && attempts != 0 && status != Invalid {
      if updates(k).Answer? {
        var es := StatusPoll(updates, status, target, attempts, k).events;
        var rest := StatusPoll(updates, updates(k).status, target, attempts - 1, k + 1).events;
        StatusPollRetries(updates, status, target, attempts, k);
        RetryCounts(updates(k), target, rest);
        StatusPollSleepsBeforeUpdates(updates, updates(k).status, target, attempts - 1, k + 1);
        forall i | 2 <= i < |es|
          ensures if i % 2 == 0 then es[i] == Sleep(StatusRetryMillis) else es[i].StatusUpdate?
        {
          assert es[i] == rest[i - 2];
        }
      } else {
        StatusPollUpdateThrows(updates, status, target, attempts, k);
        SleepAndUpdateCounts(Sleep(StatusRetryMillis), StatusUpdate(target, Failure));
      }
    }
  }

  /**
   * A status poll calls `update()` at most `attempts` times; it ends
   * Rejected only with attempts left and Exhausted only once every attempt
   * is used.
   */
  lemma {:induction false} StatusPollUpdateBound(updates: nat -> AcmeReply, status: Status, target: PollTarget, attempts: nat, k: nat)
    ensures var r := StatusPoll(updates, status, target, attempts, k);
            var u := Count(r.events, IsStatusUpdate);
            && u <= attempts
            && (r.end.Rejected? ==> u < attempts)
            && (r.end.Exhausted? ==> u == attempts)
    decreases attempts
  {
    if status != Valid && attempts != 0 && status != Invalid {
      if updates(k).Answer? {
        StatusPollRetries(updates, status, target, attempts, k);
        UpdatesMadeStep(updates, status, target, attempts, k);
        StatusPollUpdateBound(updates, updates(k).status, target, attempts - 1, k + 1);
      } else {
        StatusPollUpdateThrows(updates, status, target, attempts, k);
        SleepAndUpdateCounts(Sleep(StatusRetryMillis), StatusUpdate(target, Failure));
      }
    }
  }

  /**
   * A status poll calls `update()` at most `attempts` times, sleeping once
   * before each call; it ends Rejected only with attempts left and
   * Exhausted only once every attempt is used.
   */
  lemma StatusPollCounts(updates: nat -> AcmeReply, status: Status, target: PollTarget, attempts: nat, k: nat)
    ensures var r := StatusPoll(updates, status, target, attempts, k);
            var u := Count(r.events, IsStatusUpdate);
            && u <= attempts
            && Count(r.events, IsSleep) == u
            && (r.end.Rejected? ==> u < attempts)
            && (r.end.Exhausted? ==> u == attempts)
  {
    StatusPollSleepsBeforeUpdates(updates, status, target, attempts, k);
    StatusPollUpdateBound(updates, status, target, attempts, k);
  }

  /**
   * The status a poll saw last: the reply carried by its final update, or
   * the starting status when it made no update.
   */
  function LastSeen(status: Status, events: seq<Event>): AcmeReply {
    if events != [] && events[|events| - 1].StatusUpdate? then events[|events| - 1].updateReply
    else Answer(status)
  }

  /** Every update with an index in [from, to) answered a status other than VALID and INVALID. */
  predicate PassedOver(updates: nat -> AcmeReply, from: nat, to: int) {
    forall j | from <= j < to :: updates(j).Answer? && updates(j).status != Valid && updates(j).status != Invalid
  }

  /** Extending a run of passed-over updates one index down. */
  lemma PassedOverPrepend(updates: nat -> AcmeReply, k: nat, to: int)
    requires PassedOver(updates, k + 1, to)
    requires k < to ==> updates(k).Answer? && updates(k).status != Valid && updates(k).status != Invalid
    ensures PassedOver(updates, k, to)
  {
  }

  /** A poll that starts on VALID or INVALID makes no update. */
  lemma StatusPollStartsOpen(updates: nat -> AcmeReply, status: Status, target: PollTarget, attempts: nat, k: nat)
    ensures Count(StatusPoll(updates, status, target, attempts, k).events, IsStatusUpdate) > 0 ==> status != Valid && status != Invalid
  {
    if status == Valid || status == Invalid {
      assert StatusPoll(updates, status, target, attempts, k).events == [];
    }
  }

  /** The number of `update()` calls a status poll makes. */
  function UpdatesMade(updates: nat -> AcmeReply, status: Status, target: PollTarget, attempts: nat, k: nat): nat {
    Count(StatusPoll(updates, status, target, attempts, k).events, IsStatusUpdate)
  }

  /** Counting the updates of a poll that goes on: this one, and those of the rest. */
  lemma UpdatesMadeStep(updates: nat -> AcmeReply, status: Status, target: PollTarget, attempts: nat, k: nat)
    requires status != Valid && attempts != 0 && status != Invalid && updates(k).Answer?
    ensures UpdatesMade(updates, status, target, attempts, k) == 1 + UpdatesMade(updates, updates(k).status, target, attempts - 1, k + 1)
  {
    StatusPollRetries(updates, status, target, attempts, k);
    RetryCounts(updates(k), target, StatusPoll(updates, updates(k).status, target, attempts - 1, k + 1).events);
  }

  /** Every status a poll passed over, the starting one included, was neither VALID nor INVALID. */
  lemma {:induction false} StatusPollPassesOver(updates: nat -> AcmeReply, status: Status, target: PollTarget, attempts: nat, k: nat)
    ensures var u := UpdatesMade(updates, status, target, attempts, k);
            && (u > 0 ==> status != Valid && status != Invalid)
            && PassedOver(updates, k, k + u - 1)
    decreases attempts
  {
    StatusPollStartsOpen(updates, status, target, attempts, k);
    if status != Valid && attempts != 0 && status != Invalid {
      if updates(k).Answer? {
        UpdatesMadeStep(updates, status, target, attempts, k);
        StatusPollPassesOver(updates, updates(k).status, target, attempts - 1, k + 1);
        PassedOverPrepend(updates, k, k + UpdatesMade(updates, updates(k).status, target, attempts - 1, k + 1));
      } else {
        StatusPollUpdateThrows(updates, status, target, attempts, k);
        SleepAndUpdateCounts(Sleep(StatusRetryMillis), StatusUpdate(target, Failure));
      }
    }
  }

  /**
   * How a status poll ends is decided by the last status it saw: Reached
   * exactly on VALID, UpdateFailed exactly on a failed `update()`, Rejected
   * only on INVALID, Exhausted only on another status, which it reports.
   */
  lemma {:induction false} StatusPollOutcome(updates: nat -> AcmeReply, status: Status, target: PollTarget, attempts: nat, k: nat)
    ensures var r := StatusPoll(updates, status, target, attempts, k);
            var last := LastSeen(status, r.events);
            && (r.end.Reached? <==> last == Answer(Valid))
            && (r.end.UpdateFailed? <==> last == Failure)
            && (r.end.Rejected? ==> last == Answer(Invalid))
            && (r.end.Exhausted? ==> last == Answer(r.end.last) && r.end.last != Valid)
    decreases attempts
  {
    if status != Valid && attempts != 0 && status != Invalid {
      if updates(k).Answer? {
        var r := StatusPoll(updates, status, target, attempts, k);
        var rest := StatusPoll(updates, updates(k).status, target, attempts - 1, k + 1);
        StatusPollRetries(updates, status, target, attempts, k);
        StatusPollOutcome(updates, updates(k).status, target, attempts - 1, k + 1);
        StatusPollEndsWithUpdate(updates, updates(k).status, target, attempts - 1, k + 1);
        LastSeenAfterRetry(status, target, updates(k), rest.events);
      } else {
        StatusPollUpdateThrows(updates, status, target, attempts, k);
      }
    }
  }
}
