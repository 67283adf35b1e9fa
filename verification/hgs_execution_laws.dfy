/**
 What the allowed steps of an HGS execution mean, told on the order of its
 events: the claim, the affirmations and the intents that come before a change
 of the host. And what the conditions on observations ask, operation by operation.
 */
module HgsExecutionLaws {
  import opened Wrappers
  import opened HgsManagement

  // ----- What comes before a change -----

  /** The last save or claim, after which authority and expiry have to be affirmed anew. */
  function LastReset(events: seq<Event>): (n: int)
    ensures -1 <= n < |events|
    decreases |events|
  {
    if events == [] then -1
    else
      var n := |events| - 1;
      if events[n].Saved? || events[n].Claimed? then n else LastReset(events[..n])
  }

  predicate Between(events: seq<Event>, from: int, to: int, e: Event) {
    exists k :: from < k < to && 0 <= k < |events| && events[k] == e
  }

  /** Authority and expiry were affirmed strictly between the two. */
  predicate AffirmedBetween(events: seq<Event>, from: int, to: int) {
    Between(events, from, to, Authorised(Yes)) && Between(events, from, to, Dated(true))
  }

  predicate SavedAs(events: seq<Event>, k: int, phase: Phase) {
    0 <= k < |events| && events[k].Saved? && events[k].record.state == phase
  }

  predicate OnlyClaim(events: seq<Event>, c: int) {
    forall k | 0 <= k < |events| && events[k].Claimed? :: k == c
  }

  ghost predicate Told(q: Process, events: seq<Event>, s: int, c: int, i: int) {
    var last := LastReset(events);
    && (q.heard.sure ==> Between(events, last, |events|, Authorised(Yes)))
    && (q.heard.live ==> Between(events, last, |events|, Dated(true)))
    && (q.view.state.Prepared? ==> q.heard.claim.Unasked? && last == -1)
    && (q.heard.claim.Unasked? ==> !q.view.state.Claiming? && OnlyClaim(events, -1))
    && (q.heard.look.Some? ==> Between(events, -1, |events|, Looked(q.heard.look)))
    && (!q.heard.claim.Unasked? ==>
          SavedAs(events, s, Claiming) && AffirmedBetween(events, -1, s) && Between(events, -1, s, Looked(events[s].record.before)))
    && (q.heard.claim.Due? ==> OnlyClaim(events, -1) && (q.view.state.Claiming? ==> last == s))
    && (q.heard.claim.Answered? ==>
          s < c < |events| && events[c] == Claimed(q.heard.claim.reply) && OnlyClaim(events, c) && (q.view.state.Claiming? ==> last == c))
    && (q.own ==>
          q.heard.claim == Answered(Yes) && c < i && SavedAs(events, i, Intent) && AffirmedBetween(events, c, i)
          && (q.view.state.Intent? ==> last == i))
  }

  lemma BetweenGrows(events: seq<Event>, e: Event)
    ensures forall from: int, to: int, x: Event | to <= |events| && Between(events, from, to, x) :: Between(events + [e], from, to, x)
    ensures forall from: int, x: Event | Between(events, from, |events|, x) :: Between(events + [e], from, |events| + 1, x)
    ensures forall from: int, to: int | from < |events| < to :: Between(events + [e], from, to, e)
  {
    var more := events + [e];
    forall from: int, to: int, x: Event | to <= |events| && Between(events, from, to, x)
      ensures Between(more, from, to, x) && Between(more, from, |events| + 1, x)
    {
      var k :| from < k < to && 0 <= k < |events| && events[k] == x;
      assert more[k] == x;
    }
    forall from: int, to: int | from < |events| < to ensures Between(more, from, to, e) { assert more[|events|] == e; }
  }

  lemma {:induction false} Story(r: Record, events: seq<Event>) returns (s: int, c: int, i: int)
    requires AllowedAll(Start(r), events) && r.state.Prepared?
    ensures Told(AfterAll(Start(r), events), events, s, c, i)
    decreases |events|
  {
    if events == [] {
      s, c, i := -1, -1, -1;
    } else {
      var n := |events| - 1;
      var front, e := events[..n], events[n];
      s, c, i := Story(r, front);
      var q := AfterAll(Start(r), front);
      assert front + [e] == events;
      s, c, i := StoryGoesOn(q, front, e, s, c, i);
    }
  }

  lemma StoryGoesOn(q: Process, front: seq<Event>, e: Event, s: int, c: int, i: int) returns (s': int, c': int, i': int)
    requires Told(q, front, s, c, i) && Allowed(q, e)
    ensures Told(After(q, e), front + [e], s', c', i')
  {
    hide Between, ValidRecord, Prerequisites, AllowedEnd, NothingToDo, ReadOnly;
    var events, n := front + [e], |front|;
    BetweenGrows(front, e);
    assert events[..n] == front;
    s', c', i' := s, c, i;
    if e.Saved? && e.record.state.Claiming? { s' := n; }
    if e.Claimed? { c' := n; }
    if e.Saved? && e.record.state.Intent? { i' := n; }
  }

  /**
   Before the host is changed exactly one claim was asked. It was asked after the claiming record was saved with what had
   been looked at, was answered yes, and came before the intent was saved. Authority and expiry were affirmed before the claiming record, between the
   claim and the intent, and again between the intent and the change; nothing negative was heard before it.
   */
  lemma ChangeNeedsClaim(r: Record, events: seq<Event>, k: nat) returns (s: int, c: int, i: int)
    requires AllowedAll(Start(r), events) && r.state.Prepared? && k < |events| && events[k].Applied?
    ensures 0 <= s < c < i < k
    ensures SavedAs(events, s, Claiming) && events[c] == Claimed(Yes) && SavedAs(events, i, Intent)
    ensures OnlyClaim(events[..k], c) && Between(events, -1, s, Looked(events[s].record.before))
    ensures AffirmedBetween(events, -1, s) && AffirmedBetween(events, c, i) && AffirmedBetween(events, i, k)
    ensures forall m | 0 <= m < k :: !Negative(events[m])
  {
    hide Allowed, After, Told;
    AllowedPrefix(Start(r), events, k + 1);
    AllowedPrefix(Start(r), events, k);
    LastWasAllowed(Start(r), events[..k + 1]);
    var front := events[..k];
    assert events[..k + 1][..k] == front;
    s, c, i := Story(r, front);
    ToldOfChange(AfterAll(Start(r), front), front, events[k], s, c, i);
    BetweenPrefix(events, k);
    forall m | 0 <= m < k ensures !Negative(events[m]) {
      if Negative(events[m]) { NothingAfterNegative(r, events, m); }
    }
  }

  lemma ToldOfChange(q: Process, front: seq<Event>, e: Event, s: int, c: int, i: int)
    requires Told(q, front, s, c, i) && Allowed(q, e) && e.Applied?
    ensures 0 <= s < c < i < |front| && SavedAs(front, s, Claiming) && front[c] == Claimed(Yes) && SavedAs(front, i, Intent) && OnlyClaim(front, c)
    ensures Between(front, -1, s, Looked(front[s].record.before))
    ensures AffirmedBetween(front, -1, s) && AffirmedBetween(front, c, i) && AffirmedBetween(front, i, |front|)
  {
    hide Between, NothingToDo, ReadOnly;
  }

  lemma BetweenPrefix(events: seq<Event>, n: nat)
    requires n <= |events|
    ensures forall from: int, to: int, x: Event | Between(events[..n], from, to, x) :: Between(events, from, to, x)
  {
    forall from: int, to: int, x: Event | Between(events[..n], from, to, x) ensures Between(events, from, to, x) {
      var k :| from < k < to && 0 <= k < n && events[..n][k] == x;
      assert events[k] == x;
    }
  }

  // ----- What the conditions ask -----

  /** The configured service is the one the job asks for. */
  predicate SameService(c: Config, o: Observation) {
    o.configuredService == c.serviceName && o.configuredSigning == c.signingThumbprint && o.configuredEncryption == c.encryptionThumbprint
  }

  predicate InDomain(c: Config, o: Observation) { o.domainJoined && o.domainName == c.domainName && o.domainRole >= 4 }

  /** Every operation but a look asks for a supported server whose service, if it has one, is not another one. */
  lemma ReadyMeans(j: Job, o: Observation)
    ensures j.operation.Inspect? ==> Prerequisites(j, o)
    ensures !j.operation.Inspect? && Prerequisites(j, o) ==>
              && o.isServer && o.osBuild in {"20348", "26100"} && o.modeSupported
              && (o.serviceInitialized ==> o.attestationMode == j.config.attestationMode)
    ensures (j.operation.Initialize? || j.operation.Verify?) && Prerequisites(j, o) && o.serviceInitialized ==> SameService(j.config, o)
  {
  }

  /** On such a server each operation asks for exactly what it needs; only a reboot and a role may find a reboot pending. */
  lemma ReadyExactly(j: Job, o: Observation)
    requires o.isServer && o.osBuild in {"20348", "26100"} && o.modeSupported
    requires o.serviceInitialized ==> && o.attestationMode == j.config.attestationMode
                                      && (j.operation.Initialize? || j.operation.Verify? ==> SameService(j.config, o))
    ensures j.operation.Reboot? ==> (Prerequisites(j, o) <==> (o.rebootPending ==> j.config.allowReboot))
    ensures j.operation.InstallRole? ==> (Prerequisites(j, o) <==> o.featureSourceReady && o.offlinePolicyReady && !o.domainJoined)
    ensures j.operation.CreateForest? ==> (Prerequisites(j, o) <==> !o.rebootPending && o.roleInstalled && !o.domainJoined && o.dsrmReady)
    ensures j.operation.JoinNode? ==>
              (Prerequisites(j, o) <==> !o.rebootPending && o.roleInstalled && !o.domainJoined && o.dsrmReady && o.joinReady)
    ensures j.operation.Initialize? || j.operation.Verify? ==>
              (Prerequisites(j, o) <==> && !o.rebootPending && o.roleInstalled && InDomain(j.config, o)
                                        && o.signingReady && o.encryptionReady)
  {
  }

  /** What each operation has to show when it is done. */
  lemma MetExactly(j: Job, before: Option<Observation>, o: Observation)
    ensures j.operation.Inspect? ==> Postcondition(j, before, o)
    ensures j.operation.Reboot? ==>
              (Postcondition(j, before, o) <==> before.Some? && before.value.bootId != o.bootId && !o.rebootPending)
    ensures j.operation.InstallRole? ==> (Postcondition(j, before, o) <==> o.roleInstalled)
    ensures j.operation.CreateForest? || j.operation.JoinNode? ==> (Postcondition(j, before, o) <==> InDomain(j.config, o))
    ensures j.operation.Initialize? || j.operation.Verify? ==>
              (Postcondition(j, before, o) <==>
                 && o.roleInstalled && o.serviceInitialized && o.attestationMode == j.config.attestationMode
                 && InDomain(j.config, o) && SameService(j.config, o) && !o.rebootPending
                 && o.signingReady && o.encryptionReady && o.keyAccessVerified
                 && (j.operation.Verify? ==> o.serviceHealthy))
  {
  }

  /** Only a reboot that is not needed, and a service that is already as configured, are left alone. */
  lemma DoneExactly(j: Job, before: Observation)
    ensures j.operation.Reboot? ==> (NothingToDo(j, before) <==> !before.rebootPending)
    ensures j.operation.Initialize? ==>
              (NothingToDo(j, before) <==>
                 && before.roleInstalled && before.serviceInitialized && before.attestationMode == j.config.attestationMode
                 && InDomain(j.config, before) && SameService(j.config, before) && !before.rebootPending
                 && before.signingReady && before.encryptionReady && before.keyAccessVerified)
    ensures !j.operation.Reboot? && !j.operation.Initialize? ==> !NothingToDo(j, before)
  {
    hide Postcondition;
    MetExactly(j, None, before);
  }
}
