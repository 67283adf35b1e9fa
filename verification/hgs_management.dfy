/**
 One Host Guardian Service job: what its observations must satisfy, and the
 execution and recovery of its durable journal. Every save and every call that
 changes the host is recorded in order, and shown to be one the protocol allows.
 */
module HgsManagement {
  import opened Wrappers

  datatype Operation = Inspect | InstallRole | CreateForest | JoinNode | Initialize | Verify | Reboot

  datatype Config = Config(profile: string, attestationMode: string, domainName: string, serviceName: string, featureSource: string,
                           signingThumbprint: string, encryptionThumbprint: string, dsrmSecretRef: string, joinSecretRef: string,
                           allowReboot: bool, nodeRole: string, primaryServer: string)

  datatype Job = Job(jobId: string, deploymentId: string, tenantId: string, enrollmentId: string, deviceUri: string,
                     planDigest: string, operation: Operation, config: Config, expiresAt: int)

  datatype Observation = Observation(
    osBuild: string, isServer: bool, computerName: string, domainName: string, domainJoined: bool, domainRole: int,
    roleInstalled: bool, serviceInitialized: bool, attestationMode: string, signingReady: bool, encryptionReady: bool,
    featureSourceReady: bool, dsrmReady: bool, joinReady: bool, rebootPending: bool, bootId: string,
    serviceHealthy: bool, keyAccessVerified: bool, modeSupported: bool, offlinePolicyReady: bool,
    configuredService: string, configuredSigning: string, configuredEncryption: string)

  datatype Status = Succeeded | Failed | ReconciliationRequired | RebootRequired

  datatype Code = Inspected | Verified | StepSucceeded | RebootNeeded | RebootObserved | JobExpired | AuthorityLost
                | PrerequisiteFailed | ProviderFailed | PostconditionFailed | ReconciliationNeeded | UnsupportedPlatform

  datatype Outcome = Outcome(status: Status, code: Code, observation: Option<Observation>)

  datatype Phase = Prepared | Claiming | Intent | RebootWait | Terminal

  datatype Record = Record(assignment: Job, state: Phase, before: Option<Observation>, outcome: Option<Outcome>)

  predicate ReadOnly(j: Job) { j.operation.Inspect? || j.operation.Verify? }

  /** A result other than a failure or a reconciliation carries the observation it rests on. */
  predicate ValidOutcome(o: Outcome) {
    o.observation.Some? || o.status.Failed? || o.status.ReconciliationRequired?
  }

  /** The phase invariants of the persisted document. */
  predicate ValidRecord(r: Record) {
    && (r.state.Prepared? || r.state.Terminal? || r.before.Some?)
    && (r.state.Terminal? ==> r.outcome.Some?)
    && (r.outcome.Some? ==> ValidOutcome(r.outcome.value))
  }

  predicate Prerequisites(j: Job, o: Observation) {
    var c := j.config;
    if j.operation.Inspect? then true
    else if !o.isServer || (o.osBuild != "20348" && o.osBuild != "26100") || !o.modeSupported then false
    else if o.serviceInitialized && o.attestationMode != c.attestationMode then false
    else if o.serviceInitialized && (j.operation.Initialize? || j.operation.Verify?)
            && (o.configuredService != c.serviceName || o.configuredSigning != c.signingThumbprint
                || o.configuredEncryption != c.encryptionThumbprint) then false
    else if j.operation.Reboot? then !o.rebootPending || c.allowReboot
    else if j.operation.InstallRole? then o.featureSourceReady && o.offlinePolicyReady && !o.domainJoined
    else if o.rebootPending then false
    else if j.operation.CreateForest? || j.operation.JoinNode? then
      o.roleInstalled && !o.domainJoined && o.dsrmReady && (!j.operation.JoinNode? || o.joinReady)
    else
      o.roleInstalled && o.domainJoined && o.domainName == c.domainName && o.domainRole >= 4
      && o.signingReady && o.encryptionReady
  }

  predicate Postcondition(j: Job, before: Option<Observation>, after: Observation) {
    var c := j.config;
    match j.operation
    case Inspect => true
    case Reboot => before.Some? && before.value.bootId != after.bootId && !after.rebootPending
    case InstallRole => after.roleInstalled
    case CreateForest => after.domainJoined && after.domainName == c.domainName && after.domainRole >= 4
    case JoinNode => after.domainJoined && after.domainName == c.domainName && after.domainRole >= 4
    case _ =>
      && after.roleInstalled && after.serviceInitialized && after.attestationMode == c.attestationMode
      && after.domainJoined && after.domainName == c.domainName && after.domainRole >= 4 && !after.rebootPending
      && after.signingReady && after.encryptionReady && after.configuredService == c.serviceName
      && after.configuredSigning == c.signingThumbprint && after.configuredEncryption == c.encryptionThumbprint
      && after.keyAccessVerified && (!j.operation.Verify? || after.serviceHealthy)
  }

  // ----- What the protocol allows a process to do with a record -----

  datatype Reply = Yes | No | Threw

  /**
   Everything a process does and hears, in order: saves, the claim and the questions for authority and expiry with
   their answers, looks at the host, and changes of the host that completed or threw.
   */
  datatype Event =
    | Saved(record: Record)
    | Claimed(reply: Reply)
    | Authorised(reply: Reply)
    | Dated(live: bool)
    | Looked(seen: Option<Observation>)
    | Applied(completed: bool)

  /** An answer after which nothing but the outcome is left. */
  predicate Negative(e: Event) {
    match e
    case Saved(_) => false
    case Claimed(reply) => !reply.Yes?
    case Authorised(reply) => !reply.Yes?
    case Dated(live) => !live
    case Looked(seen) => seen.None?
    case Applied(completed) => !completed
  }

  /** The claim is asked once, after this process saved the claiming record. */
  datatype Claim = Unasked | Due | Answered(reply: Reply)

  /**
   What a process has heard: its claim; whether authority and expiry were last affirmed, since the last save or claim;
   the last look; and whether nothing negative was heard.
   */
  datatype Heard = Heard(claim: Claim, sure: bool, live: bool, look: Option<Observation>, open: bool)

  /** `view` is the record last loaded or saved; `own` says this process saved its intent, `applied` that it called the provider. */
  datatype Process = Process(view: Record, own: bool, applied: bool, heard: Heard)

  /** A process with a record it was given or found on disk. */
  function Start(r: Record): Process { Process(r, false, false, Heard(Unasked, false, false, None, true)) }

  predicate Justified(r: Record, o: Outcome) {
    && o.observation.Some?
    && (Postcondition(r.assignment, r.before, o.observation.value)
        || (r.assignment.operation.Reboot? && r.before.Some? && !r.before.value.rebootPending))
  }

  predicate AllowedEnd(p: Process, r: Record) {
    && r.before == p.view.before && r.outcome.Some?
    && (r.outcome.value.observation.None? || r.outcome.value.observation == r.before || r.outcome.value.observation == p.heard.look)
    && (r.outcome.value.status.Failed? ==> ReadOnly(r.assignment) || (p.own && !p.applied))
    && (r.outcome.value.status.Succeeded? ==> Justified(r, r.outcome.value))
    && (r.outcome.value.status.ReconciliationRequired? ==> !ReadOnly(r.assignment))
  }

  /** Authority and expiry were affirmed since the last save or claim. */
  predicate Affirmed(h: Heard) { h.open && h.sure && h.live }

  predicate AllowedSave(p: Process, r: Record) {
    && r.assignment == p.view.assignment
    && ValidRecord(r)
    && match (p.view.state, r.state)
       case (Prepared, Claiming) =>
         Affirmed(p.heard) && r.before == p.heard.look && r.before.Some? && Prerequisites(r.assignment, r.before.value)
       case (Prepared, Terminal) => r.outcome.value.status.Failed?
       case (Claiming, Intent) => r.before == p.view.before && p.heard.claim == Answered(Yes) && Affirmed(p.heard)
       case (Claiming, Terminal) => r.outcome.value.status.Failed?
       case (Intent, RebootWait) => p.applied && p.heard.open && r.before == p.view.before && r.assignment.operation.Reboot?
       case (Intent, Terminal) => AllowedEnd(p, r)
       case (RebootWait, RebootWait) => r.before == p.view.before
       case (RebootWait, Terminal) => AllowedEnd(p, r)
       case _ => false
  }

  predicate Allowed(p: Process, e: Event) {
    match e
    case Saved(r) => AllowedSave(p, r)
    case Claimed(_) => p.heard.open && p.heard.claim.Due? && p.view.state.Claiming?
    case Applied(_) =>
      p.view.state.Intent? && p.own && !p.applied && !ReadOnly(p.view.assignment) && p.heard.claim == Answered(Yes) && Affirmed(p.heard)
      && p.view.before.Some? && !NothingToDo(p.view.assignment, p.view.before.value)
    case Dated(_) => p.heard.open && !p.view.state.Terminal? && !p.heard.live
    case _ => p.heard.open && !p.view.state.Terminal?
  }

  function Hear(h: Heard, e: Event): Heard {
    var open := h.open && !Negative(e);
    match e
    case Saved(r) => h.(claim := if r.state.Claiming? then Due else h.claim, sure := false, live := false)
    case Claimed(reply) => h.(claim := Answered(reply), sure := false, live := false, open := open)
    case Authorised(reply) => h.(sure := reply.Yes?, open := open)
    case Dated(live) => h.(live := live, open := open)
    case Looked(seen) => h.(look := seen, open := open)
    case Applied(_) => h.(open := open)
  }

  function After(p: Process, e: Event): Process {
    match e
    case Saved(r) => Process(r, p.own || r.state.Intent?, p.applied, Hear(p.heard, e))
    case Applied(_) => p.(applied := true, heard := Hear(p.heard, e))
    case _ => p.(heard := Hear(p.heard, e))
  }

  function AfterAll(p: Process, events: seq<Event>): Process {
    if events == [] then p else After(AfterAll(p, events[..|events| - 1]), events[|events| - 1])
  }

  predicate AllowedAll(p: Process, events: seq<Event>) {
    events == [] || (AllowedAll(p, events[..|events| - 1])
                     && Allowed(AfterAll(p, events[..|events| - 1]), events[|events| - 1]))
  }

  lemma AllowedNext(p: Process, events: seq<Event>, e: Event)
    requires AllowedAll(p, events) && Allowed(AfterAll(p, events), e)
    ensures AllowedAll(p, events + [e]) && AfterAll(p, events + [e]) == After(AfterAll(p, events), e)
  {
    assert (events + [e])[..|events + [e]| - 1] == events;
  }

  /** A process that stops anywhere has done only what was allowed. */
  lemma {:induction false} AllowedPrefix(p: Process, events: seq<Event>, n: nat)
    requires AllowedAll(p, events) && n <= |events|
    ensures AllowedAll(p, events[..n])
    decreases |events|
  {
    if n < |events| {
      AllowedPrefix(p, events[..|events| - 1], n);
      assert events[..|events| - 1][..n] == events[..n];
    } else {
      assert events[..n] == events;
    }
  }

  function Rank(s: Phase): nat {
    match s case Prepared => 0 case Claiming => 1 case Intent => 2 case RebootWait => 3 case Terminal => 4
  }

  function Count(events: seq<Event>): nat {
    if events == [] then 0 else Count(events[..|events| - 1]) + if events[|events| - 1].Applied? then 1 else 0
  }

  /** The host was asked to change. */
  predicate Changed(events: seq<Event>) { exists k :: 0 <= k < |events| && events[k].Applied? }

  /** What one execution can do: phases advance, the host is changed at most once, and never before a failure. */
  lemma {:induction false} OneExecution(r: Record, events: seq<Event>)
    requires AllowedAll(Start(r), events) && ValidRecord(r)
    ensures var q := AfterAll(Start(r), events);
            && ValidRecord(q.view) && q.view.assignment == r.assignment
            && Rank(r.state) <= Rank(q.view.state)
            && Count(events) == (if q.applied then 1 else 0)
            && (q.own ==> Rank(q.view.state) >= 2) && (q.applied ==> q.own && !ReadOnly(q.view.assignment))
            && (q.applied && q.view.state.Terminal? ==> !q.view.outcome.value.status.Failed?)
    decreases |events|
  {
    hide Postcondition, Justified, Prerequisites, Hear;
    if events != [] {
      OneExecution(r, events[..|events| - 1]);
    }
  }

  lemma {:induction false} ChangedIsApplied(r: Record, events: seq<Event>)
    ensures AfterAll(Start(r), events).applied <==> Changed(events)
    decreases |events|
  {
    hide Hear;
    if events != [] {
      var n := |events| - 1;
      ChangedIsApplied(r, events[..n]);
      if Changed(events[..n]) {
        var k :| 0 <= k < n && events[..n][k].Applied?;
        assert events[k].Applied?;
      }
      if k :| 0 <= k < |events| && events[k].Applied? { assert k < n ==> events[..n][k].Applied?; }
    }
  }

  /** A negative answer is followed by nothing but the save of the outcome. */
  lemma {:induction false} NothingAfterNegative(r: Record, events: seq<Event>, k: nat)
    requires AllowedAll(Start(r), events) && k < |events| && Negative(events[k])
    ensures !AfterAll(Start(r), events).heard.open
    ensures k == |events| - 1 || (events[k + 1].Saved? && (events[k + 1].record.state.Terminal? || events[k + 1].record.state.RebootWait?))
    ensures forall m | k < m < |events| :: events[m].Saved?
    decreases |events|
  {
    hide Postcondition, Justified, Prerequisites, ValidRecord, AllowedEnd;
    var n := |events| - 1;
    if k < n {
      NothingAfterNegative(r, events[..n], k);
      assert events[..n][k] == events[k];
      assert forall m | k < m < n :: events[m] == events[..n][m];
    }
  }

  // ----- The journal and its environment as the methods see them -----

  class Journal {
    const assignment: Job
    var state: Phase
    var before: Option<Observation>
    var outcome: Option<Outcome>

    constructor (r: Record)
      ensures Value() == r
    {
      assignment, state, before, outcome := r.assignment, r.state, r.before, r.outcome;
    }

    function Value(): Record
      reads this
    {
      Record(assignment, state, before, outcome)
    }
  }

  /**
   The provider, the clock, the claim and the authority answer as they like, and every answer is recorded;
   saves either complete or end the process. `p` is the process as it began.
   */
  class Environment {
    var trace: seq<Event>

    constructor ()
      ensures trace == []
    {
      trace := [];
    }

    method Look(ghost p: Process) returns (o: Option<Observation>)
      requires AllowedAll(p, trace) && Asking(AfterAll(p, trace))
      modifies this
      ensures trace == old(trace) + [Looked(o)] && AllowedAll(p, trace) && AfterAll(p, trace) == After(AfterAll(p, old(trace)), Looked(o))
    {
      o := *;
      AllowedNext(p, trace, Looked(o));
      trace := trace + [Looked(o)];
    }

    method AskClaim(ghost p: Process) returns (r: Reply)
      requires AllowedAll(p, trace) && Allowed(AfterAll(p, trace), Claimed(Yes))
      modifies this
      ensures trace == old(trace) + [Claimed(r)] && AllowedAll(p, trace) && AfterAll(p, trace) == After(AfterAll(p, old(trace)), Claimed(r))
    {
      r := *;
      AllowedNext(p, trace, Claimed(r));
      trace := trace + [Claimed(r)];
    }

    method AskAuthority(ghost p: Process) returns (r: Reply)
      requires AllowedAll(p, trace) && Asking(AfterAll(p, trace))
      modifies this
      ensures trace == old(trace) + [Authorised(r)] && AllowedAll(p, trace) && AfterAll(p, trace) == After(AfterAll(p, old(trace)), Authorised(r))
    {
      r := *;
      AllowedNext(p, trace, Authorised(r));
      trace := trace + [Authorised(r)];
    }

    method Unexpired(ghost p: Process) returns (live: bool)
      requires AllowedAll(p, trace) && Asking(AfterAll(p, trace)) && !AfterAll(p, trace).heard.live
      modifies this
      ensures trace == old(trace) + [Dated(live)] && AllowedAll(p, trace) && AfterAll(p, trace) == After(AfterAll(p, old(trace)), Dated(live))
    {
      live := *;
      AllowedNext(p, trace, Dated(live));
      trace := trace + [Dated(live)];
    }

    method Apply(ghost p: Process) returns (completed: bool)
      requires AllowedAll(p, trace) && Allowed(AfterAll(p, trace), Applied(true))
      modifies this
      ensures trace == old(trace) + [Applied(completed)] && AllowedAll(p, trace)
      ensures AfterAll(p, trace) == After(AfterAll(p, old(trace)), Applied(completed))
    {
      completed := *;
      AllowedNext(p, trace, Applied(completed));
      trace := trace + [Applied(completed)];
    }

    method Save(ghost p: Process, r: Record)
      requires AllowedAll(p, trace) && AllowedSave(AfterAll(p, trace), r)
      modifies this
      ensures trace == old(trace) + [Saved(r)] && AllowedAll(p, trace) && AfterAll(p, trace) == After(AfterAll(p, old(trace)), Saved(r))
    {
      AllowedNext(p, trace, Saved(r));
      trace := trace + [Saved(r)];
    }
  }

  /** Questions and looks are for a record that is not settled, while nothing negative was heard. */
  predicate Asking(p: Process) { p.heard.open && !p.view.state.Terminal? }

  /** The trace so far is allowed from `p`, and the journal in memory is the record last saved. */
  ghost predicate Tracks(p: Process, j: Journal, env: Environment)
    reads j, env
  {
    AllowedAll(p, env.trace) && AfterAll(p, env.trace).view == j.Value() && ValidRecord(j.Value())
  }

  method Finish(ghost p: Process, j: Journal, env: Environment, status: Status, code: Code, observed: Option<Observation>)
    returns (r: Outcome)
    requires AllowedAll(p, env.trace) && ValidOutcome(Outcome(status, code, observed))
    requires AllowedSave(AfterAll(p, env.trace), Record(j.assignment, Terminal, j.before, Some(Outcome(status, code, observed))))
    modifies j, env
    ensures Tracks(p, j, env) && j.state.Terminal? && j.before == old(j.before)
    ensures r == Outcome(status, code, observed) && j.outcome == Some(r)
    ensures env.trace == old(env.trace) + [Saved(j.Value())]
  {
    j.state := Terminal;
    r := Outcome(status, code, observed);
    j.outcome := Some(r);
    env.Save(p, j.Value());
  }

  /** Saves the journal after its phase moved on. */
  method Advance(ghost p: Process, j: Journal, env: Environment, next: Phase)
    requires AllowedAll(p, env.trace)
    requires AllowedSave(AfterAll(p, env.trace), Record(j.assignment, next, j.before, j.outcome))
    modifies j, env
    ensures Tracks(p, j, env) && j.state == next && j.before == old(j.before) && j.outcome == old(j.outcome)
    ensures env.trace == old(env.trace) + [Saved(j.Value())]
    ensures AfterAll(p, env.trace) == After(AfterAll(p, old(env.trace)), Saved(j.Value()))
  {
    j.state := next;
    env.Save(p, j.Value());
  }

  function SuccessCode(j: Job): Code
  {
    if j.operation.Inspect? then Inspected else Verified
  }

  /** The operations that find nothing left to do. */
  predicate NothingToDo(j: Job, before: Observation) {
    (j.operation.Reboot? && !before.rebootPending) || (j.operation.Initialize? && Postcondition(j, None, before))
  }

  // ----- How a process ends, told from the last thing it heard -----

  /** The outcome of an execution in which something threw. */
  ghost predicate Caught(q: Process, r: Outcome) {
    r == if q.view.state.Intent? && !ReadOnly(q.view.assignment) then Outcome(ReconciliationRequired, ReconciliationNeeded, None)
         else Outcome(Failed, if q.view.state.Claiming? then AuthorityLost else ProviderFailed, None)
  }

  /** The last look of an execution: at the prerequisites, at the result of a look only, or at the result of a change. */
  ghost predicate SettledByLook(q: Process, seen: Observation, r: Outcome) {
    var job := q.view.assignment;
    var met := Postcondition(job, q.view.before, seen);
    && r.observation == Some(seen)
    && if q.view.state.Prepared? then !Prerequisites(job, seen) && r.status == Failed && r.code == PrerequisiteFailed
       else if !q.view.state.Intent? then false
       else if ReadOnly(job) then
         if met then r.status == Succeeded && r.code == (if job.operation.Inspect? then Inspected else Verified)
         else r.status == Failed && r.code == PostconditionFailed
       else
         && q.applied
         && if seen.rebootPending && (job.operation.InstallRole? || job.operation.CreateForest? || job.operation.JoinNode? || met)
            then r.status == RebootRequired && r.code == RebootNeeded
            else if met then r.status == Succeeded && r.code == StepSucceeded
            else r.status == ReconciliationRequired && r.code == PostconditionFailed
  }

  /** How an execution that began with a prepared record ends when `e` is the last thing it did or heard; `q` includes it. */
  ghost predicate Settled(q: Process, before: Option<Observation>, e: Event, r: Outcome) {
    match e
    case Saved(_) => false
    case Claimed(reply) => if reply.No? then r == Outcome(Failed, AuthorityLost, before) else reply.Threw? && Caught(q, r)
    case Authorised(reply) => if reply.No? then r == Outcome(Failed, AuthorityLost, before) else reply.Threw? && Caught(q, r)
    case Dated(live) =>
      if !live then r == if q.view.state.Prepared? then Outcome(Failed, JobExpired, None) else Outcome(Failed, AuthorityLost, before)
      else && q.own && q.heard.sure && !ReadOnly(q.view.assignment) && before.Some? && NothingToDo(q.view.assignment, before.value)
           && r == Outcome(Succeeded, StepSucceeded, before)
    case Looked(seen) => if seen.None? then Caught(q, r) else SettledByLook(q, seen.value, r)
    case Applied(completed) =>
      if !completed then Caught(q, r) else q.view.assignment.operation.Reboot? && r == Outcome(RebootRequired, RebootNeeded, before)
  }

  /** The trace ends with the save of the outcome, which what came before it explains. */
  ghost predicate Explained(p: Process, trace: seq<Event>, last: Record) {
    var n := |trace| - 1;
    && n >= 1 && trace[n] == Saved(last) && last.outcome.Some?
    && Settled(AfterAll(p, trace[..n]), last.before, trace[n - 1], last.outcome.value)
    && (last.state.RebootWait? <==> trace[n - 1] == Applied(true)) && (last.state.RebootWait? || last.state.Terminal?)
  }

  /** The trace ends with something that threw. */
  ghost predicate Thrown(trace: seq<Event>) {
    && trace != []
    && var e := trace[|trace| - 1];
       e in {Claimed(Threw), Authorised(Threw), Looked(None), Applied(false)}
  }

  lemma Explains(p: Process, trace: seq<Event>, last: Record)
    requires trace != [] && last.outcome.Some? && Settled(AfterAll(p, trace), last.before, trace[|trace| - 1], last.outcome.value)
    requires (last.state.RebootWait? <==> trace[|trace| - 1] == Applied(true)) && (last.state.RebootWait? || last.state.Terminal?)
    ensures Explained(p, trace + [Saved(last)], last)
  {
    hide Settled, AfterAll;
    assert (trace + [Saved(last)])[..|trace|] == trace;
  }

  /** How an intent or an awaited reboot found on disk is settled by one look. */
  ghost predicate RecoveredByLook(found: Record, seen: Observation, live: Option<bool>, last: Record, r: Outcome) {
    var job := found.assignment;
    if Postcondition(job, found.before, seen) then
      && live.None? && last.state.Terminal?
      && (if ReadOnly(job) then r.status == Succeeded && r.code == (if job.operation.Inspect? then Inspected else Verified)
          else && r.status == (if seen.rebootPending then RebootRequired else Succeeded)
               && r.code == (if job.operation.Reboot? then RebootObserved else StepSucceeded))
    else
      && (live.Some? <==> found.state.RebootWait?)
      && if live == Some(true) && found.before.Some? && seen.bootId == found.before.value.bootId then
           last.state.RebootWait? && r.status == RebootRequired && r.code == RebootNeeded
         else
           && last.state.Terminal?
           && (if ReadOnly(job) then r.status == Failed && r.code == PostconditionFailed
               else r.status == ReconciliationRequired && r.code == ReconciliationNeeded)
  }

  /** How a record found on disk is settled: by its phase, or by one look and where a reboot is awaited the expiry. */
  ghost predicate Recovered(found: Record, trace: seq<Event>, last: Record) {
    && last.assignment == found.assignment && last.before == found.before && last.outcome.Some?
    && var r := last.outcome.value;
       match found.state
       case Terminal => trace == [] && last == found
       case Claiming => last.state.Terminal? && trace == [Saved(last)] && r == Outcome(Failed, AuthorityLost, found.before)
       case Prepared =>
         && last.state.Terminal?
         && ((trace == [Dated(true), Saved(last)] && r == Outcome(Failed, AuthorityLost, found.before))
             || (trace == [Dated(false), Saved(last)] && r == Outcome(Failed, JobExpired, found.before)))
       case _ =>
         && trace != [] && trace[0].Looked? && r.observation == trace[0].seen
         && match trace[0].seen
            case None =>
              && last.state.Terminal? && trace == [Looked(None), Saved(last)]
              && (if ReadOnly(found.assignment) then r.status == Failed && r.code == ProviderFailed
                  else r.status == ReconciliationRequired && r.code == ReconciliationNeeded)
            case Some(seen) =>
              || (trace == [Looked(Some(seen)), Saved(last)] && RecoveredByLook(found, seen, None, last, r))
              || (trace == [Looked(Some(seen)), Dated(true), Saved(last)] && RecoveredByLook(found, seen, Some(true), last, r))
              || (trace == [Looked(Some(seen)), Dated(false), Saved(last)] && RecoveredByLook(found, seen, Some(false), last, r))
  }

  // ----- The methods -----

  /** Settles a record found on disk; the provider is only looked at. */
  method Recover(j: Journal, env: Environment) returns (r: Outcome)
    requires ValidRecord(j.Value()) && env.trace == []
    modifies j, env
    ensures Tracks(Start(old(j.Value())), j, env) && j.outcome == Some(r)
    ensures Recovered(old(j.Value()), env.trace, j.Value())
    ensures !Changed(env.trace)
  {
    hide Postcondition, Prerequisites;
    ghost var p := Start(j.Value());
    if j.state.Terminal? { return j.outcome.value; }
    if j.state.Prepared? {
      var live := env.Unexpired(p);
      r := Finish(p, j, env, Failed, if live then AuthorityLost else JobExpired, j.before);
      return;
    }
    if j.state.Claiming? {
      r := Finish(p, j, env, Failed, AuthorityLost, j.before);
      return;
    }
    var after := env.Look(p);
    r := Resolve(p, j, env, after);
  }

  /** Settles an intent or a reboot by what was looked at. */
  method Resolve(ghost p: Process, j: Journal, env: Environment, after: Option<Observation>) returns (r: Outcome)
    requires p == Start(j.Value()) && ValidRecord(p.view) && (j.state.Intent? || j.state.RebootWait?)
    requires env.trace == [Looked(after)] && AllowedAll(p, env.trace) && AfterAll(p, env.trace) == After(p, Looked(after))
    modifies j, env
    ensures Tracks(p, j, env) && j.outcome == Some(r) && Recovered(p.view, env.trace, j.Value()) && !Changed(env.trace)
  {
    hide Postcondition, Prerequisites, AllowedAll, AfterAll;
    var readOnly := ReadOnly(j.assignment);
    if after.None? {
      r := Finish(p, j, env, if readOnly then Failed else ReconciliationRequired,
                  if readOnly then ProviderFailed else ReconciliationNeeded, None);
      return;
    }
    var seen := after.value;
    if Postcondition(j.assignment, j.before, seen) {
      if readOnly {
        r := Finish(p, j, env, Succeeded, SuccessCode(j.assignment), after);
      } else {
        r := Finish(p, j, env, if seen.rebootPending then RebootRequired else Succeeded,
                    if j.assignment.operation.Reboot? then RebootObserved else StepSucceeded, after);
      }
      return;
    }
    r := ResolveUnmet(p, j, env, seen);
  }

  /** Settles what was looked at and does not meet the postcondition; a reboot that has not happened yet may go on. */
  /** The machine has not restarted yet: the record stays where it is. */
  method KeepWaiting(ghost p: Process, j: Journal, env: Environment, seen: Observation) returns (r: Outcome)
    requires p == Start(j.Value()) && ValidRecord(p.view) && j.state.RebootWait?
    requires !Postcondition(j.assignment, j.before, seen) && seen.bootId == j.before.value.bootId
    requires env.trace == [Looked(Some(seen)), Dated(true)] && AllowedAll(p, env.trace)
    requires AfterAll(p, env.trace) == After(After(p, Looked(Some(seen))), Dated(true))
    modifies j, env
    ensures Tracks(p, j, env) && j.outcome == Some(r) && Recovered(p.view, env.trace, j.Value()) && !Changed(env.trace)
  {
    hide Postcondition, Prerequisites, AllowedAll, AfterAll;
    r := Outcome(RebootRequired, RebootNeeded, Some(seen));
    j.outcome := Some(r);
    env.Save(p, j.Value());
  }

  method ResolveUnmet(ghost p: Process, j: Journal, env: Environment, seen: Observation) returns (r: Outcome)
    requires p == Start(j.Value()) && ValidRecord(p.view) && (j.state.Intent? || j.state.RebootWait?)
    requires !Postcondition(j.assignment, j.before, seen)
    requires env.trace == [Looked(Some(seen))] && AllowedAll(p, env.trace) && AfterAll(p, env.trace) == After(p, Looked(Some(seen)))
    modifies j, env
    ensures Tracks(p, j, env) && j.outcome == Some(r) && Recovered(p.view, env.trace, j.Value()) && !Changed(env.trace)
  {
    hide Postcondition, Prerequisites, AllowedAll, AfterAll;
    var readOnly := ReadOnly(j.assignment);
    var after := Some(seen);
    if j.state.RebootWait? {
      var live := env.Unexpired(p);
      if live && seen.bootId == j.before.value.bootId {
        r := KeepWaiting(p, j, env, seen);
        return;
      }
    }
    r := Finish(p, j, env, if readOnly then Failed else ReconciliationRequired,
                if readOnly then PostconditionFailed else ReconciliationNeeded, after);
  }

  /** A guarded part of an execution: it ended as its trace explains, or stopped where something threw. */
  ghost predicate Guarded(p: Process, j: Journal, env: Environment, done: bool, r: Option<Outcome>)
    reads j, env
  {
    && AllowedAll(p, env.trace)
    && if done then r.Some? && j.outcome == r && Tracks(p, j, env) && Explained(p, env.trace, j.Value())
       else && Thrown(env.trace) && j.state == AfterAll(p, env.trace).view.state && j.state != Terminal && j.state != RebootWait
            && (if j.state.Prepared? then AfterAll(p, env.trace).view == p.view && j.assignment == p.view.assignment
                else AfterAll(p, env.trace).view == j.Value() && ValidRecord(j.Value()))
  }

  /** The guarded part of an execution; `done` is false where the source throws. */
  method Attempt(ghost p: Process, j: Journal, env: Environment) returns (done: bool, r: Option<Outcome>)
    requires p == Start(j.Value()) && ValidRecord(p.view) && j.state.Prepared? && env.trace == [Dated(true)]
    requires AllowedAll(p, env.trace) && AfterAll(p, env.trace) == After(p, Dated(true))
    modifies j, env
    ensures Guarded(p, j, env, done, r) && old(env.trace) <= env.trace
  {
    hide Prerequisites, Postcondition, NothingToDo, AllowedEnd, AllowedAll, AfterAll;
    r := None;
    var looked := env.Look(p);
    if looked.None? { return false, None; }
    j.before := looked;
    var o: Outcome;
    if !Prerequisites(j.assignment, looked.value) {
      o := Conclude(p, j, env, Failed, PrerequisiteFailed, j.before);
      return true, Some(o);
    }
    var authority := env.AskAuthority(p);
    if authority.Threw? { return false, None; }
    if authority.No? {
      o := Conclude(p, j, env, Failed, AuthorityLost, j.before);
      return true, Some(o);
    }
    Advance(p, j, env, Claiming);
    done, r := Proceed(p, j, env);
  }

  /** Finishes with an outcome that the trace so far explains. */
  method Conclude(ghost p: Process, j: Journal, env: Environment, status: Status, code: Code, observed: Option<Observation>)
    returns (r: Outcome)
    requires AllowedAll(p, env.trace) && ValidOutcome(Outcome(status, code, observed))
    requires AllowedSave(AfterAll(p, env.trace), Record(j.assignment, Terminal, j.before, Some(Outcome(status, code, observed))))
    requires env.trace != [] && env.trace[|env.trace| - 1] != Applied(true)
    requires Settled(AfterAll(p, env.trace), j.before, env.trace[|env.trace| - 1], Outcome(status, code, observed))
    modifies j, env
    ensures Tracks(p, j, env) && j.outcome == Some(r) && Explained(p, env.trace, j.Value()) && r == Outcome(status, code, observed)
    ensures env.trace == old(env.trace) + [Saved(j.Value())] && j.before == old(j.before)
  {
    hide Settled, AllowedSave, AllowedAll, AfterAll;
    r := Finish(p, j, env, status, code, observed);
    Explains(p, old(env.trace), j.Value());
  }

  /** From the durable claiming record on: the claim, the durable intent, and the operation. */
  method Proceed(ghost p: Process, j: Journal, env: Environment) returns (done: bool, r: Option<Outcome>)
    requires Tracks(p, j, env) && j.state.Claiming? && j.before.Some?
    requires var q := AfterAll(p, env.trace); !q.own && !q.applied && q.heard.claim.Due? && q.heard.open
    modifies j, env
    ensures Guarded(p, j, env, done, r) && old(env.trace) <= env.trace
  {
    hide Prerequisites, Postcondition, NothingToDo, AllowedAll, AfterAll;
    r := None;
    var o: Outcome;
    var authority := Threw;
    var live := true;
    var claim := env.AskClaim(p);
    if claim.Threw? { return false, None; }
    if claim.Yes? {
      authority := env.AskAuthority(p);
      if authority.Threw? { return false, None; }
      if authority.Yes? { live := env.Unexpired(p); }
    }
    if !claim.Yes? || !authority.Yes? || !live {
      o := Conclude(p, j, env, Failed, AuthorityLost, j.before);
      return true, Some(o);
    }
    Advance(p, j, env, Intent);
    done, r := Operate(p, j, env);
  }

  /** From the durable intent on: authority and expiry once more, then the operation. */
  method Operate(ghost p: Process, j: Journal, env: Environment) returns (done: bool, r: Option<Outcome>)
    requires Tracks(p, j, env) && j.state.Intent? && j.before.Some?
    requires var q := AfterAll(p, env.trace); q.own && !q.applied && q.heard.claim == Answered(Yes) && q.heard.open && !q.heard.live
    modifies j, env
    ensures Guarded(p, j, env, done, r) && old(env.trace) <= env.trace
  {
    hide Prerequisites, Postcondition, NothingToDo, AllowedAll, AfterAll;
    r := None;
    var o: Outcome;
    var authority := env.AskAuthority(p);
    if authority.Threw? { return false, None; }
    var live := true;
    if authority.Yes? { live := env.Unexpired(p); }
    if !authority.Yes? || !live {
      o := Conclude(p, j, env, Failed, AuthorityLost, j.before);
      return true, Some(o);
    }
    if ReadOnly(j.assignment) {
      done, r := LookAgain(p, j, env);
      return;
    }
    done, r := Change(p, j, env);
  }

  /** The operations that only look, from a durable intent this process saved. */
  method LookAgain(ghost p: Process, j: Journal, env: Environment) returns (done: bool, r: Option<Outcome>)
    requires Tracks(p, j, env) && j.state.Intent? && ReadOnly(j.assignment)
    requires var q := AfterAll(p, env.trace); q.own && !q.applied && q.heard.open
    modifies j, env
    ensures Guarded(p, j, env, done, r) && old(env.trace) <= env.trace
  {
    hide Prerequisites, Postcondition, NothingToDo, AllowedAll, AfterAll;
    var o: Outcome;
    var looked := env.Look(p);
    if looked.None? { return false, None; }
    if Postcondition(j.assignment, j.before, looked.value) {
      o := Conclude(p, j, env, Succeeded, SuccessCode(j.assignment), looked);
    } else {
      o := Conclude(p, j, env, Failed, PostconditionFailed, looked);
    }
    return true, Some(o);
  }

  /** The operations that change the host, from a durable intent this process saved. */
  method Change(ghost p: Process, j: Journal, env: Environment) returns (done: bool, r: Option<Outcome>)
    requires Tracks(p, j, env) && j.state.Intent? && !ReadOnly(j.assignment) && j.before.Some?
    requires env.trace != [] && env.trace[|env.trace| - 1] == Dated(true)
    requires var q := AfterAll(p, env.trace); q.own && !q.applied && q.heard.claim == Answered(Yes) && Affirmed(q.heard)
    modifies j, env
    ensures Guarded(p, j, env, done, r) && old(env.trace) <= env.trace
  {
    hide Prerequisites, Postcondition, AllowedAll, AfterAll;
    r := None;
    var o: Outcome;
    var op := j.assignment.operation;
    if op.Reboot? && !j.before.value.rebootPending {
      o := Conclude(p, j, env, Succeeded, StepSucceeded, j.before);
      return true, Some(o);
    }
    if op.Initialize? && Postcondition(j.assignment, None, j.before.value) {
      InitializeIgnoresBefore(j.assignment, j.before, j.before.value);
      o := Conclude(p, j, env, Succeeded, StepSucceeded, j.before);
      return true, Some(o);
    }
    var completed := env.Apply(p);
    if !completed { return false, None; }
    if op.Reboot? {
      o := Outcome(RebootRequired, RebootNeeded, j.before);
      j.outcome := Some(o);
      ghost var t := env.trace;
      Advance(p, j, env, RebootWait);
      Explains(p, t, j.Value());
      return true, Some(o);
    }
    done, r := LookAtResult(p, j, env);
  }

  lemma InitializeIgnoresBefore(job: Job, before: Option<Observation>, after: Observation)
    requires job.operation.Initialize? && Postcondition(job, None, after)
    ensures Postcondition(job, before, after)
  {
  }

  /** What a change that completed led to. */
  method LookAtResult(ghost p: Process, j: Journal, env: Environment) returns (done: bool, r: Option<Outcome>)
    requires Tracks(p, j, env) && j.state.Intent? && !ReadOnly(j.assignment) && !j.assignment.operation.Reboot?
    requires var q := AfterAll(p, env.trace); q.own && q.applied && q.heard.open
    modifies j, env
    ensures Guarded(p, j, env, done, r) && old(env.trace) <= env.trace
  {
    hide Prerequisites, Postcondition, NothingToDo, AllowedAll, AfterAll;
    r := None;
    var o: Outcome;
    var op := j.assignment.operation;
    var after := env.Look(p);
    if after.None? { return false, None; }
    if (op.InstallRole? || op.CreateForest? || op.JoinNode?) && after.value.rebootPending {
      o := Conclude(p, j, env, RebootRequired, RebootNeeded, after);
      return true, Some(o);
    }
    if !Postcondition(j.assignment, j.before, after.value) {
      o := Conclude(p, j, env, ReconciliationRequired, PostconditionFailed, after);
      return true, Some(o);
    }
    var pending := after.value.rebootPending;
    o := Conclude(p, j, env, if pending then RebootRequired else Succeeded, if pending then RebootNeeded else StepSucceeded, after);
    return true, Some(o);
  }

  /** What a negative answer means: nothing was changed, and the outcome says which it was. */
  ghost predicate RefusedMeansUnchanged(trace: seq<Event>, last: Record) {
    && (Claimed(No) in trace || Authorised(No) in trace ==>
          !Changed(trace) && last.outcome == Some(Outcome(Failed, AuthorityLost, last.before)))
    && (Claimed(Threw) in trace ==> !Changed(trace) && last.outcome == Some(Outcome(Failed, AuthorityLost, None)))
    && (Dated(false) in trace ==>
          !Changed(trace) && (if trace[0] == Dated(false) then last.outcome == Some(Outcome(Failed, JobExpired, None))
                              else last.outcome == Some(Outcome(Failed, AuthorityLost, last.before))))
  }

  /** The record was claimed under an observation that met the prerequisites; a change had something to do. */
  lemma {:induction false} ClaimedWhenReady(r: Record, events: seq<Event>)
    requires AllowedAll(Start(r), events) && r.state.Prepared?
    ensures var q := AfterAll(Start(r), events);
            && (1 <= Rank(q.view.state) <= 3 ==> q.view.before.Some? && Prerequisites(q.view.assignment, q.view.before.value))
            && (q.applied ==> && Rank(q.view.state) >= 2 && q.view.before.Some? && Prerequisites(q.view.assignment, q.view.before.value)
                              && !NothingToDo(q.view.assignment, q.view.before.value))
    decreases |events|
  {
    hide Postcondition, Prerequisites, NothingToDo, Justified, ValidRecord, Hear;
    if events != [] { ClaimedWhenReady(r, events[..|events| - 1]); }
  }

  lemma LastWasAllowed(p: Process, events: seq<Event>)
    requires AllowedAll(p, events) && events != []
    ensures var n := |events| - 1;
            && AllowedAll(p, events[..n]) && Allowed(AfterAll(p, events[..n]), events[n])
            && AfterAll(p, events) == After(AfterAll(p, events[..n]), events[n])
  {
  }

  /** After an expiry that was affirmed, the next one is asked only once the record was claimed. */
  lemma {:induction false} ExpiryAskedOnce(r: Record, events: seq<Event>)
    requires AllowedAll(Start(r), events) && r.state.Prepared? && events != [] && events[0] == Dated(true)
    ensures var q := AfterAll(Start(r), events); (q.view.state.Prepared? ==> q.heard.live) && Rank(q.view.state) >= 0
    decreases |events|
  {
    hide Postcondition, Prerequisites, Justified, ValidRecord;
    if |events| > 1 { ExpiryAskedOnce(r, events[..|events| - 1]); } else { assert events[..0] == []; }
  }

  lemma FirstExpiry(r: Record, trace: seq<Event>)
    requires AllowedAll(Start(r), trace) && r.state.Prepared? && trace != [] && trace[0] == Dated(true)
    ensures forall k | 0 < k < |trace| && trace[k].Dated? :: !AfterAll(Start(r), trace[..k]).view.state.Prepared?
  {
    hide Postcondition, Prerequisites, Justified, ValidRecord;
    forall k | 0 < k < |trace| && trace[k].Dated? ensures !AfterAll(Start(r), trace[..k]).view.state.Prepared? {
      AllowedPrefix(Start(r), trace, k + 1);
      LastWasAllowed(Start(r), trace[..k + 1]);
      assert trace[..k + 1][..k] == trace[..k];
      ExpiryAskedOnce(r, trace[..k]);
    }
  }

  lemma NegativeIsLast(r: Record, trace: seq<Event>, last: Record, e: Event)
    requires AllowedAll(Start(r), trace) && Explained(Start(r), trace, last) && e in trace && Negative(e)
    ensures trace[|trace| - 2] == e
  {
    hide Caught, SettledByLook, AllowedAll, AfterAll;
    var k :| 0 <= k < |trace| && trace[k] == e;
    NothingAfterNegative(r, trace, k);
  }

  lemma ClaimedBeforeIntent(r: Record, trace: seq<Event>)
    requires AllowedAll(Start(r), trace) && trace != [] && trace[|trace| - 1].Claimed?
    ensures AfterAll(Start(r), trace).view.state.Claiming?
  {
    hide Postcondition, Prerequisites, Justified, ValidRecord, Hear;
  }

  lemma ExpiredWhere(r: Record, trace: seq<Event>)
    requires AllowedAll(Start(r), trace) && r.state.Prepared? && trace != [] && trace[0].Dated? && trace[|trace| - 1] == Dated(false)
    ensures trace[0] == Dated(false) <==> AfterAll(Start(r), trace).view.state.Prepared?
  {
    hide Postcondition, Prerequisites, Justified, ValidRecord, Hear, AllowedAll;
    var n := |trace| - 1;
    if n == 0 {
      assert trace[..0] == [] && AfterAll(Start(r), trace) == After(Start(r), trace[0]);
    } else {
      if trace[0] == Dated(false) { NothingAfterNegative(r, trace, 0); }
      FirstExpiry(r, trace);
      LastWasAllowed(Start(r), trace);
    }
  }

  /** What is known of the end of an execution: the last event, the process then, and that a failure changed nothing. */
  lemma EndOf(r: Record, trace: seq<Event>, last: Record)
    requires AllowedAll(Start(r), trace) && ValidRecord(r) && Explained(Start(r), trace, last)
    ensures var n := |trace| - 1;
            && n >= 1 && last.outcome.Some?
            && AllowedAll(Start(r), trace[..n]) && Settled(AfterAll(Start(r), trace[..n]), last.before, trace[n - 1], last.outcome.value)
            && trace[..n] != [] && trace[..n][n - 1] == trace[n - 1]
    ensures last.state.Terminal? && last.outcome.value.status.Failed? ==> !Changed(trace)
    ensures last.state.Terminal? || trace[|trace| - 2] == Applied(true)
  {
    hide Postcondition, Prerequisites, NothingToDo, Justified, ValidRecord, Settled, Hear, Changed, AllowedAll, AfterAll;
    LastWasAllowed(Start(r), trace);
    OneExecution(r, trace);
    ChangedIsApplied(r, trace);
  }

  lemma RefusalFacts(r: Record, trace: seq<Event>, last: Record)
    requires AllowedAll(Start(r), trace) && ValidRecord(r) && r.state.Prepared? && Explained(Start(r), trace, last) && trace[0].Dated?
    ensures RefusedMeansUnchanged(trace, last)
  {
    hide SettledByLook, AllowedAll, AfterAll, Changed, Explained;
    var n := |trace| - 1;
    EndOf(r, trace, last);
    if Claimed(No) in trace { NegativeIsLast(r, trace, last, Claimed(No)); }
    if Authorised(No) in trace { NegativeIsLast(r, trace, last, Authorised(No)); }
    if Claimed(Threw) in trace {
      NegativeIsLast(r, trace, last, Claimed(Threw));
      ClaimedBeforeIntent(r, trace[..n]);
    }
    if Dated(false) in trace {
      NegativeIsLast(r, trace, last, Dated(false));
      assert trace[..n][0] == trace[0];
      ExpiredWhere(r, trace[..n]);
    }
  }

  /** Executes a prepared record, or settles one that was already under way. */
  method Execute(j: Journal, env: Environment) returns (r: Outcome)
    requires ValidRecord(j.Value()) && env.trace == []
    modifies j, env
    ensures Tracks(Start(old(j.Value())), j, env) && j.outcome == Some(r)
    ensures old(j.state).Prepared? ==> Explained(Start(old(j.Value())), env.trace, j.Value())
    ensures !old(j.state).Prepared? ==> Recovered(old(j.Value()), env.trace, j.Value()) && !Changed(env.trace)
    ensures old(j.state).Prepared? ==> RefusedMeansUnchanged(env.trace, j.Value())
    ensures Changed(env.trace) ==> old(j.state).Prepared? && j.before.Some? && Prerequisites(j.assignment, j.before.value) && !r.status.Failed?
    ensures old(j.state).Prepared? && !ReadOnly(j.assignment) && (r.status.Succeeded? || r.status.RebootRequired?) ==>
              j.before.Some? && (Changed(env.trace) <==> !NothingToDo(j.assignment, j.before.value))
  {
    hide Settled;
    ghost var p := Start(j.Value());
    if j.state.Terminal? { return j.outcome.value; }
    if !j.state.Prepared? {
      r := Recover(j, env);
      return;
    }
    r := ExecutePrepared(j, env);
    ExecutionFacts(p.view, env.trace, j.Value());
  }

  lemma ExecutionFacts(r: Record, trace: seq<Event>, last: Record)
    requires AllowedAll(Start(r), trace) && ValidRecord(r) && r.state.Prepared? && Explained(Start(r), trace, last) && trace[0].Dated?
    ensures RefusedMeansUnchanged(trace, last)
    ensures Changed(trace) ==> last.before.Some? && Prerequisites(last.assignment, last.before.value) && !last.outcome.value.status.Failed?
    ensures !ReadOnly(last.assignment) && (last.outcome.value.status.Succeeded? || last.outcome.value.status.RebootRequired?) ==>
              last.before.Some? && (Changed(trace) <==> !NothingToDo(last.assignment, last.before.value))
  {
    hide Postcondition, Prerequisites, NothingToDo, Justified, ValidRecord, AllowedAll, AfterAll, Hear, Changed;
    RefusalFacts(r, trace, last);
    var n := |trace| - 1;
    LastWasAllowed(Start(r), trace);
    LastWasAllowed(Start(r), trace[..n]);
    OneExecution(r, trace);
    ChangedIsApplied(r, trace);
    ClaimedWhenReady(r, trace);
    ClaimedWhenReady(r, trace[..n]);
    assert trace[..n][n - 1] == trace[n - 1];
  }

  lemma NothingYet(p: Process)
    ensures AllowedAll(p, []) && AfterAll(p, []) == p
  {
  }

  method ExecutePrepared(j: Journal, env: Environment) returns (r: Outcome)
    requires ValidRecord(j.Value()) && env.trace == [] && j.state.Prepared?
    modifies j, env
    ensures Tracks(Start(old(j.Value())), j, env) && j.outcome == Some(r) && Explained(Start(old(j.Value())), env.trace, j.Value())
    ensures env.trace != [] && env.trace[0].Dated?
  {
    hide Prerequisites, Postcondition, NothingToDo, AllowedAll, AfterAll;
    ghost var p := Start(j.Value());
    NothingYet(p);
    var live := env.Unexpired(p);
    if !live {
      r := Conclude(p, j, env, Failed, JobExpired, None);
      return;
    }
    var done, o := Attempt(p, j, env);
    if done { return o.value; }
    var uncertain := j.state.Intent? && !ReadOnly(j.assignment);
    r := Conclude(p, j, env, if uncertain then ReconciliationRequired else Failed,
                  if uncertain then ReconciliationNeeded else if j.state.Claiming? then AuthorityLost else ProviderFailed, None);
  }
}
