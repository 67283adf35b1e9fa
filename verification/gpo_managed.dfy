/**
 Execution and inspection of managed GPO jobs against an arbitrary provider:
 what is checked before the approval is consumed, the durable intent, the
 writes, and the checks on the snapshot that follows them.
 */
module GpoManaged {
  import opened Wrappers
  import opened GpoRecord
  import opened GpoPostconditions
  import opened GpoProtocolSteps

  const STATE_CHANGED := Known("gpo_state_changed")
  const VERIFICATION_FAILED := Known("gpo_verification_failed")
  const AUTHORITY_EXPIRED := Known("gpo_authority_expired")
  const LINK_CONFLICT := Known("gpo_link_conflict")
  const TARGET_INVALID := Known("gpo_target_invalid")
  const PROVIDER_FAILED := Known("gpo_provider_failed")

  // ----- Whether an observed state may be executed on -----

  function CountOwn(ls: seq<Link>, id: string): (n: nat)
    ensures n <= |ls|
  {
    if ls == [] then 0 else CountOwn(ls[1..], id) + if ls[0].guid == id then 1 else 0
  }

  /** The requested position exists once the GPO's own link, of which there is at most one, is set aside. */
  predicate PositionFits(ls: seq<Link>, id: string, order: int) {
    var own := CountOwn(ls, id);
    own <= 1 && |ls| - own + 1 <= 128 && 1 <= order <= |ls| - own + 1
  }

  predicate TargetsFit(j: Job, s: Snapshot) {
    |s.ous| == |j.targets| == |j.orders| && forall n | 0 <= n < |s.ous| :: PositionFits(s.ous[n].links, j.gpoGuid, j.orders[n])
  }

  predicate ExistingLinkFits(j: Job, l: Link) {
    l.kind == TargetKind(j) && l.domain == j.domainDns && !l.enforced && exists t :: 0 <= t < |j.targets| && Lower(j.targets[t]) == Lower(l.dn)
  }

  function LinkedDns(ls: seq<Link>): set<string> { set l | l in ls :: Lower(l.dn) }

  function PolicyProblem(j: Job, g: Policy): Option<Code> {
    var op := j.intended;
    var disabled := !g.computerEnabled && !g.userEnabled;
    var owned := j.ownerMarker == ManagedMarker(j);
    if g.description != j.ownerMarker then Some(Known("gpo_unmanaged_target"))
    else if g.wmiFilter != "" || g.computerDs != g.computerSysvol || g.userDs != g.userSysvol then Some(STATE_CHANGED)
    else if (LinkOperation(op) || !owned) && !disabled then Some(Known("gpo_requires_disabled"))
    else if !owned && g.links != [] then Some(Known("gpo_unmanaged_target"))
    else if !(LinkOperation(op) || op.ActivateManaged? || op.DeactivateManaged? || op.DeleteManaged?) then None
    else if exists i :: 0 <= i < |g.links| && !ExistingLinkFits(j, g.links[i]) then Some(LINK_CONFLICT)
    else if op.ActivateManaged? && |LinkedDns(g.links)| != |j.targets| then Some(LINK_CONFLICT)
    else if !Inspection(j) && j.schema != 4 && op.ActivateManaged?
            && exists n :: 0 <= n < |j.targets| && n < |j.orders|
                           && (FindByDn(g.links, j.targets[n]).None? || FindByDn(g.links, j.targets[n]).value.order != j.orders[n])
    then Some(LINK_CONFLICT)
    else None
  }

  /** `sizeFits`: the reserve kept for the result; its arithmetic over serialized text is not modelled. */
  function StateProblem(j: Job, s: Snapshot, sizeFits: bool): Option<Code> {
    var confirmedMissing := Inspection(j) && j.intended.DeleteManaged? && j.gpoGuid != "" && s.policy.None?;
    if !ValidSnapshot(s) || (!confirmedMissing && StateGuid(s) != j.gpoGuid) then Some(STATE_CHANGED)
    else if !s.nameAvailable then Some(Known("gpo_name_collision"))
    else if |s.ous| != |j.targets| then Some(TARGET_INVALID)
    else if DomainTarget(j) && exists n :: 0 <= n < |s.ous| && (s.ous[n].guid != j.domainGuid || s.ous[n].inherited != []) then Some(TARGET_INVALID)
    else if exists n :: 0 <= n < |s.ous| && Lower(s.ous[n].dn) != Lower(j.targets[n]) then Some(TARGET_INVALID)
    else if LinkOperation(j.intended) && !TargetsFit(j, s) then Some(LINK_CONFLICT)
    else if (!j.intended.ImportManaged? || j.gpoGuid == "" || Adoption(j)) && !sizeFits then Some(TARGET_INVALID)
    else if s.policy.None? then None
    else PolicyProblem(j, s.policy.value)
  }

  // ----- Results -----

  function EvidenceOf(j: Job, state: Snapshot, backupId: string, backupHash: string): Evidence {
    ManagedEvidence(j.schema, j.operation, j.managedId, state,
                    if ImportOperation(j.operation) || j.operation.ActivateManaged? then j.artifact else "",
                    backupId, backupHash, if j.schema == 4 then j.overrideSha else "")
  }

  function SuccessStatus(o: Operation): Status
    requires ManagedOperation(o)
  {
    match o
    case ImportManaged => Staged
    case LinkManaged => Linked
    case ImportAndLink => Linked
    case ActivateManaged => Activated
    case DeactivateManaged => Deactivated
    case DeleteManaged => Deleted
  }

  function SuccessCodeOf(o: Operation): Code
    requires ManagedOperation(o)
  {
    match o
    case ImportManaged => PreparedCode
    case LinkManaged => LinkedCode
    case ImportAndLink => LinkedCode
    case ActivateManaged => ActivatedCode
    case DeactivateManaged => DeactivatedCode
    case DeleteManaged => DeletedCode
  }

  predicate BackupMatches(o: Operation, backup: (string, string)) {
    if o.ActivateManaged? || o.DeleteManaged? then ValidUuid(backup.0) && IsHash(backup.1) else backup == ("", "")
  }

  lemma UsableIsNamed(s: string)
    requires UsableGpo(s) || ValidUuid(s)
    ensures s != ""
  {
  }

  lemma ManagedJobFacts(j: Job)
    requires ValidJob(j) && j.schema >= 3 && !Inspection(j)
    ensures 3 <= j.schema <= 4 && ManagedOperation(j.operation) && IsHash(j.artifact) && ValidUuid(j.managedId)
    ensures j.schema == 4 ==> IsHash(j.overrideSha)
  {
  }

  lemma NotInspected(j: Job)
    requires ValidJob(j) && j.schema >= 3 && !Inspection(j)
    ensures ManagedOperation(j.operation)
  {
  }

  lemma BackupIsNamed(o: Operation, backup: (string, string))
    requires BackupMatches(o, backup)
    ensures backup.0 == "" <==> !(o.ActivateManaged? || o.DeleteManaged?)
  {
  }

  lemma NoBackup(o: Operation, backup: (string, string))
    requires BackupMatches(o, backup) && !o.ActivateManaged? && !o.DeleteManaged?
    ensures backup == ("", "")
  {
  }

  lemma MadeNamesBackup(s: Status, c: Code, guid: string, j: Job, state: Snapshot, backup: (string, string))
    ensures var made := MakeResult(s, c, guid, EvidenceOf(j, state, backup.0, backup.1));
            made.Some? ==> made.value.evidence.ManagedEvidence? && (made.value.evidence.backupId, made.value.evidence.backupHash) == backup
  {
    hide ValidResult;
  }

  lemma StateGuidIsUsable(state: Snapshot)
    requires ValidSnapshot(state)
    ensures StateGuid(state) == "" || UsableGpo(StateGuid(state))
  {
  }

  /** The result of a finished write is always one the contract accepts. */
  lemma SuccessIsValid(j: Job, state: Snapshot, backup: (string, string))
    requires ValidJob(j) && j.schema >= 3 && !Inspection(j) && ValidSnapshot(state) && BackupMatches(j.operation, backup)
    requires (StateGuid(state) == "") == j.operation.DeleteManaged?
    ensures MakeResult(SuccessStatus(j.operation), SuccessCodeOf(j.operation), StateGuid(state),
                       EvidenceOf(j, state, backup.0, backup.1)).Some?
  {
    hide ValidSnapshot, IsHash, ValidUuid, ManagedMarker, ValidJob, StateGuid, UsableGpo;
    ManagedJobFacts(j);
    BackupIsNamed(j.operation, backup);
  }

  /** A finished record of a managed job reads back. */
  lemma FinishedRecordIsValid(r: Record, state: Snapshot, backup: (string, string))
    requires ValidRecord(r) && r.assignment.schema >= 3 && !Inspection(r.assignment) && r.approval.Some?
    requires ValidSnapshot(state) && BackupMatches(r.assignment.operation, backup)
    requires (StateGuid(state) == "") == r.assignment.operation.DeleteManaged?
    ensures var op := r.assignment.operation;
            var made := MakeResult(SuccessStatus(op), SuccessCodeOf(op), StateGuid(state), EvidenceOf(r.assignment, state, backup.0, backup.1));
            && made.Some? && Success(made.value.status) && ValidManagedResult(made.value)
            && made.value.status == SuccessStatus(op) && made.value.evidence.ManagedEvidence? && made.value.evidence.state == state
            && ValidRecord(r.(state := Terminal, guid := StateGuid(state), result := made))
  {
    hide ValidSnapshot, IsHash, ValidUuid, ValidJob, StateGuid, UsableGpo, ValidApproval, BackupMatches, Clean, ManagedMarker;
    SuccessIsValid(r.assignment, state, backup);
    StateGuidIsUsable(state);
    ManagedJobFacts(r.assignment);
  }

  /** What the source does when it catches: the exception's own code if the result admits it, else a generic one. */
  function CaughtResult(s: Status, c: Code, guid: string): Option<Receipt> {
    match MakeResult(s, c, guid, NoEvidence)
    case Some(r) => Some(r)
    case None => MakeResult(s, PROVIDER_FAILED, guid, NoEvidence)
  }

  lemma CaughtRecordIsValid(r: Record, s: Status, c: Code, guid: string)
    requires ValidRecord(r) && !Completed(r.state) && ((s.FailedStatus? && guid == "") || s.RequiresReconciliation?)
    requires guid == "" || UsableGpo(guid)
    requires !Inspection(r.assignment) || s.FailedStatus?
    ensures CaughtResult(s, c, guid).Some? && CaughtResult(s, c, guid).value.status == s
    ensures ValidRecord(r.(state := if s.FailedStatus? then Terminal else Reconciliation, guid := guid, result := CaughtResult(s, c, guid)))
  {
    hide ValidJob, UsableGpo, ValidApproval, Clean;
  }

  // ----- Execution -----

  /** What holds of a granted record whose approval was verified. */
  ghost predicate Executable(r: Record) {
    && ValidRecord(r) && r.state.Granted? && 3 <= r.assignment.schema <= 4 && !Inspection(r.assignment)
    && r.approval.Some?
  }

  /** A success means this about the snapshots that were read, the first two before anything was written. */
  ghost predicate Witnessed(j: Job, seen: seq<Snapshot>, receipt: Receipt) {
    && j.expected.Some? && receipt.evidence.ManagedEvidence? && ValidManagedResult(receipt)
    && |seen| >= 2 && seen[0] == j.expected.value && seen[1] == j.expected.value
    && receipt.evidence.state == seen[|seen| - 1]
    && receipt.status == SuccessStatusOf(j)
    && (if j.operation.ImportManaged? && j.gpoGuid != "" && !Adoption(j) then |seen| == 2
        else |seen| > 2 && Postconditions(j, j.expected.value, seen[|seen| - 1]))
  }

  ghost function SuccessStatusOf(j: Job): Status {
    if ManagedOperation(j.operation) then SuccessStatus(j.operation) else FailedStatus
  }

  /** The evidence names the backup that was made, or none where none was. */
  ghost predicate NamesBackup(trace: seq<Event>, receipt: Receipt) {
    receipt.evidence.ManagedEvidence? && (receipt.evidence.backupId, receipt.evidence.backupHash) == BackupIn(trace)
  }

  /** The policy whose links an operation may change. */
  function OwnGuid(j: Job, before: Snapshot, after: Snapshot): string {
    if j.operation.DeleteManaged? then StateGuid(before) else StateGuid(after)
  }

  /**
   Main result: a success of any operation means that what was read before the write was the approved state, and
   that the last snapshot keeps every link of other GPOs on every target, with the same flags and relative order.
   */
  lemma SuccessKeepsForeignLinks(j: Job, seen: seq<Snapshot>, receipt: Receipt)
    requires Witnessed(j, seen, receipt)
    ensures seen[0] == seen[1] == j.expected.value
    ensures KeepsForeignLinks(seen[0], seen[|seen| - 1], OwnGuid(j, seen[0], seen[|seen| - 1]))
  {
    hide ValidManagedResult;
    if |seen| > 2 { PostconditionsKeepForeignLinks(j, seen[0], seen[|seen| - 1]); }
  }

  datatype Ready = Ready(state: Snapshot, backup: (string, string))

  /** The reads before the approval is consumed, when all is as approved: in this order, and nothing else. */
  ghost function Approach(o: Operation, state: Snapshot, fits: bool, backup: (string, string)): seq<Event> {
    [Authorised(true), Seen(state), Sized(fits)]
    + (if ImportOperation(o) || o.ActivateManaged? then [Checked] else [])
    + (if o.ActivateManaged? || o.DeleteManaged? then [BackedUp(backup)] else [])
    + [Seen(state), Authorised(true)]
  }

  /** The trace is the approach to the state that was approved. */
  ghost predicate Approached(j: Job, trace: seq<Event>, ready: Ready) {
    |trace| > 2 && trace[2].Sized? && trace == Approach(j.operation, ready.state, trace[2].fits, ready.backup)
  }

  /** What the last snapshot of a write must show. */
  predicate FinalMet(j: Job, before: Snapshot, after: Snapshot, id: string) {
    (if j.operation.DeleteManaged? then StateGuid(after) == "" else FinalPolicy(j, after, id)) && Postconditions(j, before, after)
  }

  /**
   Why an execution of `found` stopped after `events` with this code: what threw, an authority that was not affirmed, or
   the first thing read that is not as it has to be. `id` is the GPO that was named by then.
   */
  ghost predicate Excused(found: Record, events: seq<Event>, id: string, code: Code) {
    var job := found.assignment;
    if events == [] then (found.deadline == 0 || found.approval.None?) && code == Known("gpo_portal_approval_invalid")
    else
      var n := |events| - 1;
      match events[n]
      case Thrown(thrown) => code == thrown
      case Authorised(current) => !current && code == AUTHORITY_EXPIRED
      case Sized(fits) =>
        && n > 0 && events[n - 1].Seen?
        && var state := events[n - 1].snapshot;
           if StateProblem(job, state, fits).Some? then code == StateProblem(job, state, fits).value
           else Some(state) != job.expected && code == STATE_CHANGED
      case BackedUp(backup) => !(ValidUuid(backup.0) && IsHash(backup.1)) && code == Known("gpo_backup_failed")
      case Named(guid) => !UsableGpo(guid) && code == VERIFICATION_FAILED
      case Seen(state) =>
        var count := |SeenIn(events)|;
        if count == 2 then Some(state) != job.expected && code == STATE_CHANGED
        else
          && job.expected.Some?
          && if job.operation.ImportAndLink? && count == 3 then PreparedProblem(job, job.expected.value, state, id) == Some(code)
             else count >= 3 && !FinalMet(job, job.expected.value, state, id) && code == VERIFICATION_FAILED
      case _ => false
  }

  lemma ThrownIsExcused(found: Record, before: seq<Event>, id: string, code: Code)
    ensures Excused(found, before + [Thrown(code)], id, code)
  {
  }

  lemma ExpiredIsExcused(found: Record, before: seq<Event>, id: string)
    ensures Excused(found, before + [Authorised(false)], id, AUTHORITY_EXPIRED)
  {
  }

  lemma UnusableIsExcused(found: Record, before: seq<Event>, guid: string)
    requires !UsableGpo(guid)
    ensures Excused(found, before + [Named(guid)], guid, VERIFICATION_FAILED)
  {
    hide UsableGpo;
  }

  lemma BadBackupIsExcused(found: Record, before: seq<Event>, backup: (string, string))
    requires !(ValidUuid(backup.0) && IsHash(backup.1))
    ensures Excused(found, before + [BackedUp(backup)], "", Known("gpo_backup_failed"))
  {
    hide ValidUuid, IsHash;
  }

  lemma ChangeIsExcused(found: Record, before: seq<Event>, state: Snapshot)
    requires |SeenIn(before + [Seen(state)])| == 2 && Some(state) != found.assignment.expected
    ensures Excused(found, before + [Seen(state)], "", STATE_CHANGED)
  {
    hide SeenIn, BackupIn;
  }

  lemma UnpreparedIsExcused(found: Record, before: seq<Event>, state: Snapshot, prepared: Snapshot, id: string, code: Code)
    requires found.assignment.expected == Some(state) && found.assignment.operation.ImportAndLink?
    requires |SeenIn(before + [Seen(prepared)])| == 3 && PreparedProblem(found.assignment, state, prepared, id) == Some(code)
    ensures Excused(found, before + [Seen(prepared)], id, code)
  {
    hide SeenIn, BackupIn, PreparedProblem;
  }

  lemma ProblemIsExcused(found: Record, before: seq<Event>, state: Snapshot, fits: bool, code: Code)
    requires if StateProblem(found.assignment, state, fits).Some? then code == StateProblem(found.assignment, state, fits).value
             else Some(state) != found.assignment.expected && code == STATE_CHANGED
    ensures Excused(found, before + [Seen(state)] + [Sized(fits)], "", code)
  {
    hide StateProblem;
  }

  /** What the process may have done while it only read. */
  ghost predicate Reading(p: Process, env: Environment)
    reads env
  {
    var q := AfterAll(p, env.trace);
    AllowedAll(p, env.trace) && q == p.(heard := q.heard) && CallsIn(env.trace) == []
  }

  /** The checks before the approval is consumed; they only read. */
  method Examine(ghost p: Process, j: Journal, env: Environment) returns (r: Answer<Ready>)
    requires p == Loaded(j.Value()) && j.state.Granted? && env.trace == [] && Reading(p, env) && AfterAll(p, env.trace) == p
    requires SeenIn(env.trace) == [] && BackupIn(env.trace) == ("", "")
    modifies env
    ensures Reading(p, env)
    ensures r.Raised? ==> Excused(p.view, env.trace, "", r.code)
    ensures r.Got? ==>
              && j.deadline != 0 && j.approval.Some? && j.assignment.expected == Some(r.value.state)
              && BackupMatches(j.assignment.operation, r.value.backup) && Approached(j.assignment, env.trace, r.value)
              && SeenIn(env.trace) == [r.value.state, r.value.state] && BackupIn(env.trace) == r.value.backup
              && var h := AfterAll(p, env.trace).heard; AffirmedAround(h) && h.looks == h.matches == 2
  {
    hide StateProblem, ValidUuid, IsHash, AllowedAll, AfterAll, CallsIn, SeenIn, BackupIn, Excused, Approach;
    if j.deadline == 0 || j.approval.None? { UnapprovedIsExcused(p.view); return Raised(Known("gpo_portal_approval_invalid")); }
    ghost var t := env.trace;
    var authority := env.Authority(p);
    if authority.Raised? { ThrownIsExcused(p.view, t, "", authority.code); return Raised(authority.code); }
    if !authority.value { ExpiredIsExcused(p.view, t, ""); return Raised(AUTHORITY_EXPIRED); }
    t := env.trace;
    var first := env.Inspect(p);
    if first.Raised? { ThrownIsExcused(p.view, t, "", first.code); return Raised(first.code); }
    var state := first.value;
    var sizeFits := env.SizeFits(p);
    var problem := StateProblem(j.assignment, state, sizeFits);
    if problem.Some? { ProblemIsExcused(p.view, t, state, sizeFits, problem.value); return Raised(problem.value); }
    if Some(state) != j.assignment.expected { ProblemIsExcused(p.view, t, state, sizeFits, STATE_CHANGED); return Raised(STATE_CHANGED); }
    assert env.trace == [Authorised(true), Seen(state), Sized(sizeFits)];
    t := env.trace;
    var op := j.assignment.operation;
    if ImportOperation(op) || op.ActivateManaged? {
      var prepared := env.Prepare(p);
      if prepared.Raised? { ThrownIsExcused(p.view, t, "", prepared.code); return Raised(prepared.code); }
    } else {
      assert t + [] == t;
    }
    r := ExamineAgain(p, j, env, state, sizeFits);
  }

  /** The backup, where the operation needs one. */
  method TakeBackup(ghost p: Process, j: Journal, env: Environment) returns (r: Answer<(string, string)>)
    requires p == Loaded(j.Value()) && j.state.Granted? && Reading(p, env) && BackupIn(env.trace) == ("", "") && AfterAll(p, env.trace).heard.open
    modifies env
    ensures Reading(p, env) && SeenIn(env.trace) == SeenIn(old(env.trace))
    ensures r.Raised? ==> Excused(p.view, env.trace, "", r.code)
    ensures r.Got? ==>
              && BackupMatches(j.assignment.operation, r.value) && BackupIn(env.trace) == r.value
              && env.trace == old(env.trace) + (if j.assignment.operation.ActivateManaged? || j.assignment.operation.DeleteManaged? then [BackedUp(r.value)] else [])
              && var h, k := AfterAll(p, old(env.trace)).heard, AfterAll(p, env.trace).heard;
                 k.open && k.early == h.early && k.looks == h.looks && k.matches == h.matches
  {
    hide ValidUuid, IsHash, AllowedAll, AfterAll, CallsIn, SeenIn, BackupIn, Excused;
    var op := j.assignment.operation;
    ghost var t := env.trace;
    if !op.ActivateManaged? && !op.DeleteManaged? {
      assert t + [] == t;
      return Got(("", ""));
    }
    r := env.Backup(p);
    if r.Raised? { ThrownIsExcused(p.view, t, "", r.code); return; }
    if !ValidUuid(r.value.0) || !IsHash(r.value.1) { BadBackupIsExcused(p.view, t, r.value); return Raised(Known("gpo_backup_failed")); }
  }

  /** The backup, the second reading and the second question for authority. */
  method ExamineAgain(ghost p: Process, j: Journal, env: Environment, state: Snapshot, ghost fits: bool) returns (r: Answer<Ready>)
    requires p == Loaded(j.Value()) && j.state.Granted? && Reading(p, env) && j.assignment.expected == Some(state) && SeenIn(env.trace) == [state]
    requires BackupIn(env.trace) == ("", "")
    requires var q := AfterAll(p, env.trace); q.heard.open && q.heard.early && q.heard.looks == q.heard.matches == 1
    requires var op := j.assignment.operation;
             env.trace == [Authorised(true), Seen(state), Sized(fits)] + if ImportOperation(op) || op.ActivateManaged? then [Checked] else []
    requires j.deadline != 0 && j.approval.Some?
    modifies env
    ensures Reading(p, env)
    ensures r.Raised? ==> Excused(p.view, env.trace, "", r.code)
    ensures r.Got? ==>
              && r.value.state == state && BackupMatches(j.assignment.operation, r.value.backup) && Approached(j.assignment, env.trace, r.value)
              && SeenIn(env.trace) == [state, state] && BackupIn(env.trace) == r.value.backup
              && var h := AfterAll(p, env.trace).heard; AffirmedAround(h) && h.looks == h.matches == 2
  {
    hide StateProblem, ValidUuid, IsHash, AllowedAll, AfterAll, CallsIn, SeenIn, BackupIn, Excused, Approach;
    var op := j.assignment.operation;
    ghost var t := env.trace;
    var taken := TakeBackup(p, j, env);
    if taken.Raised? { return Raised(taken.code); }
    var backup := taken.value;
    ghost var u := env.trace;
    var second := env.Inspect(p);
    if second.Raised? { ThrownIsExcused(p.view, u, "", second.code); return Raised(second.code); }
    if Some(second.value) != j.assignment.expected { ChangeIsExcused(p.view, u, second.value); return Raised(STATE_CHANGED); }
    ghost var v := env.trace;
    var authority := env.Authority(p);
    if authority.Raised? { ThrownIsExcused(p.view, v, "", authority.code); return Raised(authority.code); }
    if !authority.value { ExpiredIsExcused(p.view, v, ""); return Raised(AUTHORITY_EXPIRED); }
    ApproachIs(op, state, fits, backup, t, u, env.trace);
    r := Got(Ready(state, backup));
  }

  lemma ApproachIs(o: Operation, state: Snapshot, fits: bool, backup: (string, string), t: seq<Event>, u: seq<Event>, trace: seq<Event>)
    requires t == [Authorised(true), Seen(state), Sized(fits)] + if ImportOperation(o) || o.ActivateManaged? then [Checked] else []
    requires u == t + if o.ActivateManaged? || o.DeleteManaged? then [BackedUp(backup)] else []
    requires trace == u + [Seen(state)] + [Authorised(true)]
    ensures trace == Approach(o, state, fits, backup) && |trace| > 2 && trace[2] == Sized(fits)
  {
  }

  lemma UnapprovedIsExcused(found: Record)
    requires found.deadline == 0 || found.approval.None?
    ensures Excused(found, [], "", Known("gpo_portal_approval_invalid"))
  {
  }

  /** Everything before the durable intent; a receipt is returned when nothing needs to be written. */
  method Preflight(ghost p: Process, j: Journal, env: Environment) returns (r: Answer<Ready>, done: Option<Receipt>)
    requires p == Loaded(j.Value()) && ValidRecord(p.view) && j.state.Granted? && env.trace == []
    requires 3 <= j.assignment.schema <= 4 && !Inspection(j.assignment)
    modifies j, env
    ensures AllowedAll(p, env.trace) && CallsIn(env.trace) == []
    ensures r.Raised? ==> && done.None? && j.Value() == p.view && AfterAll(p, env.trace).view == p.view && !AfterAll(p, env.trace).intent
                          && Excused(p.view, env.trace, "", r.code)
    ensures done.Some? ==> AfterAll(p, env.trace).view == j.Value() && j.result == done && LastSaved(j, env)
                           && j.assignment.operation.ImportManaged? && j.assignment.gpoGuid != "" && !Adoption(j.assignment)
                           && Witnessed(j.assignment, SeenIn(env.trace), done.value) && Success(done.value.status) && NamesBackup(env.trace, done.value)
                           && forall e :: e in env.trace ==> !e.Mutated?
    ensures r.Got? && done.None? ==>
              && Executable(p.view) && j.Value() == p.view && Ripe(p, env, r.value)
              && (j.assignment.operation.ImportManaged? ==> j.assignment.gpoGuid == "" || Adoption(j.assignment))
  {
    hide ValidRecord, ValidSnapshot, ValidApproval, StateProblem, Postconditions, BackupMatches, Witnessed, AllowedAll, AfterAll, CallsIn, SeenIn, BackupIn, Approach;
    done := None;
    NothingHeard(p);
    r := Examine(p, j, env);
    if r.Raised? { return; }
    ghost var before := env.trace;
    var consumed := env.Consume(p);
    if consumed.Raised? { return Raised(consumed.code), None; }
    if j.assignment.operation.ImportManaged? && j.assignment.gpoGuid != "" && !Adoption(j.assignment) {
      NoBackup(j.assignment.operation, r.value.backup);
      done := FinishPrepared(p, j, env, r.value.state);
    } else {
      assert env.trace == before + [Consumed];
    }
  }

  /** The approval was used after the approach to the approved state, which is what is carried on. */
  ghost predicate Ripe(p: Process, env: Environment, ready: Ready)
    reads env
  {
    var j := p.view.assignment;
    var n := |env.trace| - 1;
    && AllowedAll(p, env.trace) && n >= 0 && env.trace[n] == Consumed && Approached(j, env.trace[..n], ready)
    && (var q := AfterAll(p, env.trace); q == p.(consumed := true, heard := q.heard) && q.heard.open)
    && SeenIn(env.trace) == [ready.state, ready.state] && j.expected == Some(ready.state) && BackupMatches(j.operation, ready.backup)
    && CallsIn(env.trace) == [] && BackupIn(env.trace) == ready.backup
  }

  lemma NothingHeard(p: Process)
    ensures AllowedAll(p, []) && AfterAll(p, []) == p && CallsIn([]) == [] && SeenIn([]) == [] && BackupIn([]) == ("", "")
  {
  }

  /** The result for a GPO that was already prepared is what was read twice, and may be saved. */
  lemma PreparedIsWitnessed(p: Process, r: Record, state: Snapshot)
    requires p == Loaded(r) && Executable(r) && r.assignment.expected == Some(state)
    requires r.assignment.operation.ImportManaged? && r.assignment.gpoGuid != "" && !Adoption(r.assignment)
    ensures var made := MakeResult(Staged, PreparedCode, StateGuid(state), EvidenceOf(r.assignment, state, "", ""));
            && made.Some? && made.value.status == Staged && Witnessed(r.assignment, [state, state], made.value)
            && made.value.evidence.ManagedEvidence? && made.value.evidence.backupId == "" && made.value.evidence.backupHash == ""
            && forall q: Process | q == p.(consumed := true, heard := q.heard) && q.heard.open ::
                 AllowedSave(q, r.(state := Terminal, guid := StateGuid(state), result := made))
  {
    UsableIsNamed(StateGuid(state));
    FinishedRecordIsValid(r, state, ("", ""));
    MadeNamesBackup(Staged, PreparedCode, StateGuid(state), r.assignment, state, ("", ""));
    hide ValidSnapshot, ValidRecord, MakeResult, ManagedMarker, ValidManagedResult, StateGuid;
  }

  /** The import that writes nothing: the approved state is recorded as staged. */
  method FinishPrepared(ghost p: Process, j: Journal, env: Environment, state: Snapshot) returns (done: Option<Receipt>)
    requires p == Loaded(j.Value()) && Executable(p.view) && AllowedAll(p, env.trace)
    requires var q := AfterAll(p, env.trace); q == p.(consumed := true, heard := q.heard) && q.heard.open
    requires CallsIn(env.trace) == [] && SeenIn(env.trace) == [state, state] && j.assignment.expected == Some(state)
    requires BackupIn(env.trace) == ("", "") && j.assignment.operation.ImportManaged? && j.assignment.gpoGuid != "" && !Adoption(j.assignment)
    modifies j, env
    ensures AllowedAll(p, env.trace) && AfterAll(p, env.trace).view == j.Value() && j.result == done && done.Some? && LastSaved(j, env)
    ensures CallsIn(env.trace) == []
    ensures Witnessed(j.assignment, SeenIn(env.trace), done.value) && Success(done.value.status) && NamesBackup(env.trace, done.value)
    ensures forall e :: e in env.trace ==> !e.Mutated?
  {
    hide Executable, Witnessed, AllowedSave, MakeResult, StateGuid, AllowedAll, AfterAll, SeenIn, BackupIn, CallsIn;
    PreparedIsWitnessed(p, j.Value(), state);
    j.guid := StateGuid(state);
    done := MakeResult(Staged, PreparedCode, j.guid, EvidenceOf(j.assignment, state, "", ""));
    j.result := done;
    j.state := Terminal;
    Persist(p, j, env);
    NothingMutated(env.trace);
  }

  lemma {:induction false} NothingMutated(events: seq<Event>)
    requires CallsIn(events) == []
    ensures forall e :: e in events ==> !e.Mutated?
    decreases |events|
  {
    if events != [] { NothingMutated(events[..|events| - 1]); }
  }

  // ----- The writes -----

  /** The process saved its intent, and the journal in memory carries the same approval and assignment. */
  ghost predicate Underway(p: Process, j: Journal, env: Environment)
    reads j, env
  {
    var q := AfterAll(p, env.trace);
    && Executable(p.view) && AllowedAll(p, env.trace)
    && q.consumed && q.intent && Writing(q.view.state) && ValidRecord(q.view)
    && q.view.assignment == j.assignment == p.view.assignment && q.view.deviceUri == j.deviceUri == p.view.deviceUri
    && j.deadline == q.view.deadline == p.view.deadline && j.approval == q.view.approval == p.view.approval
    && j.result.None?
  }

  method Write(ghost p: Process, j: Journal, env: Environment, call: Call) returns (r: Answer<bool>)
    requires Underway(p, j, env) && Willing(p, env)
    requires call.LinkCall? && j.assignment.operation.ImportAndLink? ==> var h := AfterAll(p, env.trace).heard; h.again && h.sure
    modifies env
    ensures Underway(p, j, env) && AfterAll(p, env.trace).view == AfterAll(p, old(env.trace)).view
    ensures CallsIn(env.trace) == CallsIn(old(env.trace)) + [call] && SeenIn(env.trace) == SeenIn(old(env.trace)) && BackupIn(env.trace) == BackupIn(old(env.trace))
    ensures r.Got? ==> Willing(p, env)
    ensures r.Raised? ==> LastThrew(env, r.code)
  {
    hide Executable, ValidRecord, AllowedAll, AfterAll, CallsIn, SeenIn, BackupIn;
    r := env.Mutate(p, call);
  }

  /** Authority was affirmed since the intent was last saved, and nothing negative was heard. */
  ghost predicate Willing(p: Process, env: Environment)
    reads env
  {
    var h := AfterAll(p, env.trace).heard; h.willing && h.open
  }

  ghost predicate LastSaved(j: Journal, env: Environment)
    reads j, env
  {
    env.trace != [] && env.trace[|env.trace| - 1] == Saved(j.Value())
  }

  ghost predicate LastThrew(env: Environment, code: Code)
    reads env
  {
    env.trace != [] && env.trace[|env.trace| - 1] == Thrown(code)
  }

  /** What is wrong with the snapshot between the import and the link, in which only the newly prepared GPO may differ. */
  function PreparedProblem(j: Job, state: Snapshot, prepared: Snapshot, id: string): Option<Code> {
    if !ValidSnapshot(prepared) || StateGuid(prepared) != id || !prepared.nameAvailable || prepared.ous != state.ous then Some(STATE_CHANGED)
    else if prepared.policy.None? then Some(PROVIDER_FAILED)
    else
      var g := prepared.policy.value;
      if g.computerEnabled || g.userEnabled || g.description != ManagedMarker(j) || g.wmiFilter != ""
         || g.computerDs != g.computerSysvol || g.userDs != g.userSysvol then Some(VERIFICATION_FAILED)
      else if j.gpoGuid == "" then if g.name != j.displayName || g.links != [] then Some(STATE_CHANGED) else None
      else if state.policy.None? then Some(PROVIDER_FAILED)
      else
        var expected := if Adoption(j) then state.policy.value.(name := j.displayName, description := ManagedMarker(j)) else state.policy.value;
        if g != expected then Some(STATE_CHANGED) else None
  }

  /** What the snapshot after a write that keeps the GPO must show before the postconditions are checked. */
  predicate FinalPolicy(j: Job, after: Snapshot, id: string) {
    && StateGuid(after) == id && after.policy.Some?
    && var g := after.policy.value;
    && g.description == ManagedMarker(j) && g.wmiFilter == "" && g.computerDs == g.computerSysvol && g.userDs == g.userSysvol
    && (!j.operation.ActivateManaged? ==> !g.computerEnabled && !g.userEnabled)
    && (j.operation.ImportManaged? ==> g.links == [])
  }

  lemma KnownOperation(r: Record)
    requires Executable(r)
    ensures ManagedOperation(r.assignment.operation)
  {
    NotInspected(r.assignment);
  }

  /** How an operation gets its GPO. */
  function CreationCalls(j: Job): seq<Call> { if j.gpoGuid == "" then [CreateCall] else [] }

  /** The writes of an operation to its GPO, in order. */
  function OperationCalls(j: Job): seq<Call> {
    match j.operation
    case LinkManaged => [LinkCall]
    case ActivateManaged => [ActivateCall]
    case DeactivateManaged => [DeactivateCall]
    case DeleteManaged => [RemoveCall]
    case ImportManaged => PreparationCalls(j)
    case ImportAndLink => PreparationCalls(j) + [LinkCall]
    case _ => []
  }

  function PreparationCalls(j: Job): seq<Call> {
    if Adoption(j) then [AdoptCall] else if j.gpoGuid == "" then [InitializeCall] else []
  }

  function ManagedCalls(j: Job): seq<Call> { CreationCalls(j) + OperationCalls(j) }

  /** The import of a new GPO or the adoption of an existing one. */
  method PrepareContent(ghost p: Process, j: Journal, env: Environment) returns (r: Answer<bool>)
    requires Underway(p, j, env) && Willing(p, env)
    modifies env
    ensures Underway(p, j, env) && AfterAll(p, env.trace).view == AfterAll(p, old(env.trace)).view
    ensures CallsIn(env.trace) == CallsIn(old(env.trace)) + PreparationCalls(j.assignment) && SeenIn(env.trace) == SeenIn(old(env.trace)) && BackupIn(env.trace) == BackupIn(old(env.trace))
    ensures r.Got? ==> Willing(p, env)
    ensures r.Raised? ==> LastThrew(env, r.code)
  {
    hide Executable, ValidRecord, ManagedMarker, AllowedAll, AfterAll, CallsIn, SeenIn, BackupIn;
    assert CallsIn(env.trace) + [] == CallsIn(env.trace);
    r := Got(true);
    if Adoption(j.assignment) { r := Write(p, j, env, AdoptCall); }
    else if j.assignment.gpoGuid == "" { r := Write(p, j, env, InitializeCall); }
  }

  lemma ThrewIsExcused(found: Record, env: Environment, id: string, code: Code)
    requires LastThrew(env, code)
    ensures Excused(found, env.trace, id, code)
  {
  }

  /** Between the import and the link: the state is read again, the intent is saved again, and only then is the link written. */
  method LinkPrepared(ghost p: Process, j: Journal, env: Environment, state: Snapshot) returns (r: Answer<bool>)
    requires Underway(p, j, env) && Willing(p, env) && j.Value() == AfterAll(p, env.trace).view && j.state.Importing?
    requires SeenIn(env.trace) == [state, state] && j.assignment.expected == Some(state) && j.assignment.operation.ImportAndLink?
    modifies env
    ensures Underway(p, j, env) && j.Value() == AfterAll(p, env.trace).view
    ensures CallsIn(old(env.trace)) <= CallsIn(env.trace) <= CallsIn(old(env.trace)) + [LinkCall]
    ensures r.Raised? ==> Excused(p.view, env.trace, j.guid, r.code)
    ensures r.Got? ==> && CallsIn(env.trace) == CallsIn(old(env.trace)) + [LinkCall] && Willing(p, env)
                       && BackupIn(env.trace) == BackupIn(old(env.trace))
                       && |SeenIn(env.trace)| == 3 && SeenIn(env.trace)[..2] == [state, state]
                       && PreparedProblem(j.assignment, state, SeenIn(env.trace)[2], j.guid).None?
  {
    hide Executable, ValidRecord, PreparedProblem, AllowedAll, AfterAll, CallsIn, SeenIn, BackupIn, Excused, UsableGpo;
    ghost var t := env.trace;
    var prepared := env.Inspect(p);
    if prepared.Raised? { ThrownIsExcused(p.view, t, j.guid, prepared.code); return Raised(prepared.code); }
    var problem := PreparedProblem(j.assignment, state, prepared.value, j.guid);
    if problem.Some? { UnpreparedIsExcused(p.view, t, state, prepared.value, j.guid, problem.value); return Raised(problem.value); }
    Persist(p, j, env);
    t := env.trace;
    var authority := env.Authority(p);
    if authority.Raised? { ThrownIsExcused(p.view, t, j.guid, authority.code); return Raised(authority.code); }
    if !authority.value { ExpiredIsExcused(p.view, t, j.guid); return Raised(AUTHORITY_EXPIRED); }
    r := Write(p, j, env, LinkCall);
    if r.Raised? { ThrewIsExcused(p.view, env, j.guid, r.code); }
  }

  method ApplyOperation(ghost p: Process, j: Journal, env: Environment, state: Snapshot) returns (r: Answer<bool>)
    requires Underway(p, j, env) && Willing(p, env) && j.Value() == AfterAll(p, env.trace).view && j.state.Importing?
    requires SeenIn(env.trace) == [state, state] && j.assignment.expected == Some(state)
    modifies env
    ensures Underway(p, j, env) && j.Value() == AfterAll(p, env.trace).view
    ensures CallsIn(old(env.trace)) <= CallsIn(env.trace) <= CallsIn(old(env.trace)) + OperationCalls(j.assignment)
    ensures r.Raised? ==> Excused(p.view, env.trace, j.guid, r.code)
    ensures r.Got? ==> && CallsIn(env.trace) == CallsIn(old(env.trace)) + OperationCalls(j.assignment) && Willing(p, env)
                       && BackupIn(env.trace) == BackupIn(old(env.trace))
                       && (if j.assignment.operation.ImportAndLink?
                           then && |SeenIn(env.trace)| == 3 && SeenIn(env.trace)[..2] == [state, state]
                                && PreparedProblem(j.assignment, state, SeenIn(env.trace)[2], j.guid).None?
                           else SeenIn(env.trace) == [state, state])
  {
    hide Executable, ValidRecord, PreparedProblem, CallsIn, SeenIn, BackupIn, PreparationCalls, ValidJob, AllowedAll, AfterAll, Excused;
    KnownOperation(p.view);
    var op := j.assignment.operation;
    if !ImportOperation(op) {
      var call := if op.LinkManaged? then LinkCall else if op.ActivateManaged? then ActivateCall
                  else if op.DeactivateManaged? then DeactivateCall else RemoveCall;
      r := Write(p, j, env, call);
      if r.Raised? { ThrewIsExcused(p.view, env, j.guid, r.code); }
      return;
    }
    ghost var before := CallsIn(env.trace);
    r := PrepareContent(p, j, env);
    if op.ImportAndLink? { Regroup(before, PreparationCalls(j.assignment), [LinkCall]); }
    if r.Raised? { ThrewIsExcused(p.view, env, j.guid, r.code); }
    if r.Raised? || !op.ImportAndLink? { return; }
    r := LinkPrepared(p, j, env, state);
  }

  lemma PhaseIsValid(r: Record, next: Phase, guid: string)
    requires ValidRecord(r) && Writing(r.state) && UsableGpo(guid) && (next.Created? || next.Importing?)
    ensures ValidRecord(r.(state := next, guid := guid))
  {
    hide ValidJob, ValidApproval, Clean;
    UsableIsNamed(guid);
  }

  lemma TargetIsUsable(r: Record)
    requires Executable(r)
    ensures r.assignment.gpoGuid == "" || UsableGpo(r.assignment.gpoGuid)
  {
    hide UsableGpo, ValidSnapshot, ValidApproval;
  }

  /** Creates the GPO or takes the approved one, and records its identity before anything is written to it. */
  method NameGpo(ghost p: Process, j: Journal, env: Environment) returns (r: Answer<bool>)
    requires Underway(p, j, env) && j.Value() == AfterAll(p, env.trace).view && j.state.Creating? && j.guid == ""
    requires AfterAll(p, env.trace).heard.open
    modifies j, env
    ensures Underway(p, j, env) && SeenIn(env.trace) == SeenIn(old(env.trace)) && BackupIn(env.trace) == BackupIn(old(env.trace))
    ensures CallsIn(old(env.trace)) <= CallsIn(env.trace) <= CallsIn(old(env.trace)) + CreationCalls(j.assignment)
    ensures r.Raised? ==> Excused(p.view, env.trace, j.guid, r.code)
    ensures r.Got? ==> && CallsIn(env.trace) == CallsIn(old(env.trace)) + CreationCalls(j.assignment) && Willing(p, env)
                       && j.Value() == AfterAll(p, env.trace).view && j.state.Importing? && UsableGpo(j.guid)
                       && (j.assignment.gpoGuid != "" ==> j.guid == j.assignment.gpoGuid)
  {
    hide Executable, ValidRecord, UsableGpo, CallsIn, SeenIn, BackupIn, AllowedAll, AfterAll, Excused;
    ghost var t := env.trace;
    var authority := env.Authority(p);
    if authority.Raised? { ThrownIsExcused(p.view, t, j.guid, authority.code); return Raised(authority.code); }
    if !authority.value { ExpiredIsExcused(p.view, t, j.guid); return Raised(AUTHORITY_EXPIRED); }
    r := ObtainGpo(p, j, env);
  }

  /** The new GPO or the approved one, named on disk. */
  method ObtainGpo(ghost p: Process, j: Journal, env: Environment) returns (r: Answer<bool>)
    requires Underway(p, j, env) && Willing(p, env) && j.Value() == AfterAll(p, env.trace).view && j.state.Creating? && j.guid == ""
    modifies j, env
    ensures Underway(p, j, env) && SeenIn(env.trace) == SeenIn(old(env.trace)) && BackupIn(env.trace) == BackupIn(old(env.trace))
    ensures CallsIn(env.trace) == CallsIn(old(env.trace)) + CreationCalls(j.assignment)
    ensures r.Raised? ==> Excused(p.view, env.trace, j.guid, r.code)
    ensures r.Got? ==> && Willing(p, env) && j.Value() == AfterAll(p, env.trace).view && j.state.Importing? && UsableGpo(j.guid)
                       && (j.assignment.gpoGuid != "" ==> j.guid == j.assignment.gpoGuid)
  {
    hide Executable, ValidRecord, UsableGpo, CallsIn, SeenIn, BackupIn, AllowedAll, AfterAll, Excused;
    TargetIsUsable(p.view);
    var target := j.assignment.gpoGuid;
    if target == "" {
      ghost var t := env.trace + [Mutated(CreateCall)];
      var created := env.Create(p);
      if created.Raised? { ThrownIsExcused(p.view, t, j.guid, created.code); return Raised(created.code); }
      j.guid := created.value;
      if !UsableGpo(j.guid) { UnusableIsExcused(p.view, t, j.guid); return Raised(VERIFICATION_FAILED); }
    } else {
      j.guid := target;
      if !UsableGpo(j.guid) { return Raised(VERIFICATION_FAILED); }
      assert CallsIn(env.trace) + [] == CallsIn(env.trace);
    }
    RecordName(p, j, env);
    r := Got(true);
  }

  /** The name of the GPO goes to disk before anything is written to it. */
  method RecordName(ghost p: Process, j: Journal, env: Environment)
    requires Underway(p, j, env) && Willing(p, env) && j.state.Creating? && UsableGpo(j.guid)
    requires AfterAll(p, env.trace).view == j.Value().(guid := "")
    modifies j, env
    ensures Underway(p, j, env) && Willing(p, env) && j.Value() == AfterAll(p, env.trace).view && j.state.Importing? && j.guid == old(j.guid)
    ensures CallsIn(env.trace) == CallsIn(old(env.trace)) && SeenIn(env.trace) == SeenIn(old(env.trace)) && BackupIn(env.trace) == BackupIn(old(env.trace))
  {
    hide Executable, ValidRecord, UsableGpo, CallsIn, SeenIn, BackupIn, AllowedAll, AfterAll;
    PhaseIsValid(AfterAll(p, env.trace).view, Created, j.guid);
    j.state := Created;
    Persist(p, j, env);
    PhaseIsValid(j.Value(), Importing, j.guid);
    j.state := Importing;
    Persist(p, j, env);
  }

  /** Everything after the durable intent. */
  method WriteAndVerify(ghost p: Process, j: Journal, env: Environment, ready: Ready) returns (r: Answer<Receipt>)
    requires Underway(p, j, env) && j.Value() == AfterAll(p, env.trace).view && j.state.Creating? && j.guid == ""
    requires AfterAll(p, env.trace).heard.open
    requires j.assignment.expected == Some(ready.state) && SeenIn(env.trace) == [ready.state, ready.state]
    requires BackupMatches(j.assignment.operation, ready.backup) && BackupIn(env.trace) == ready.backup && CallsIn(env.trace) == []
    requires j.assignment.operation.ImportManaged? ==> j.assignment.gpoGuid == "" || Adoption(j.assignment)
    modifies j, env
    ensures CallsIn(env.trace) <= ManagedCalls(j.assignment)
    ensures r.Got? ==> CallsIn(env.trace) == ManagedCalls(j.assignment)
    ensures r.Got? ==> AllowedAll(p, env.trace) && AfterAll(p, env.trace).view == j.Value() && j.result == Some(r.value) && LastSaved(j, env)
                       && Witnessed(j.assignment, SeenIn(env.trace), r.value) && NamesBackup(env.trace, r.value) && j.state.Terminal? && Success(r.value.status)
    ensures r.Raised? ==> Underway(p, j, env) && Excused(p.view, env.trace, j.guid, r.code)
  {
    hide Executable, ValidRecord, UsableGpo, ValidSnapshot, ManagedMarker, Witnessed, FinalMet, CallsIn, SeenIn, BackupIn, CreationCalls, OperationCalls,
         AllowedAll, AfterAll, Excused, PreparedProblem;
    var named := NameGpo(p, j, env);
    if named.Raised? { return Raised(named.code); }
    var applied := ApplyOperation(p, j, env, ready.state);
    if applied.Raised? { return Raised(applied.code); }
    r := VerifyWritten(p, j, env, ready);
  }

  /** The last reading, and the result it supports. */
  method VerifyWritten(ghost p: Process, j: Journal, env: Environment, ready: Ready) returns (r: Answer<Receipt>)
    requires Underway(p, j, env) && Willing(p, env) && j.Value() == AfterAll(p, env.trace).view && j.state.Importing?
    requires j.assignment.expected == Some(ready.state) && BackupMatches(j.assignment.operation, ready.backup) && BackupIn(env.trace) == ready.backup
    requires |SeenIn(env.trace)| == (if j.assignment.operation.ImportAndLink? then 3 else 2) && SeenIn(env.trace)[..2] == [ready.state, ready.state]
    requires j.assignment.operation.ImportManaged? ==> j.assignment.gpoGuid == "" || Adoption(j.assignment)
    modifies j, env
    ensures CallsIn(env.trace) == CallsIn(old(env.trace))
    ensures r.Got? ==> AllowedAll(p, env.trace) && AfterAll(p, env.trace).view == j.Value() && j.result == Some(r.value) && LastSaved(j, env)
                       && Witnessed(j.assignment, SeenIn(env.trace), r.value) && NamesBackup(env.trace, r.value) && j.state.Terminal? && Success(r.value.status)
    ensures r.Raised? ==> Underway(p, j, env) && Excused(p.view, env.trace, j.guid, r.code)
  {
    hide Executable, ValidRecord, UsableGpo, ValidSnapshot, ManagedMarker, Postconditions, Witnessed, FinalPolicy, CallsIn, SeenIn, BackupIn,
         AllowedAll, AfterAll, PreparedProblem, StateProblem, ValidUuid, StateGuid;
    var final := env.Inspect(p);
    if final.Raised? { return Raised(final.code); }
    var after := final.value;
    if j.assignment.operation.DeleteManaged? {
      if StateGuid(after) != "" { return Raised(VERIFICATION_FAILED); }
    } else if !FinalPolicy(j.assignment, after, j.guid) {
      return Raised(VERIFICATION_FAILED);
    }
    if !Postconditions(j.assignment, ready.state, after) { return Raised(VERIFICATION_FAILED); }
    r := FinishWritten(p, j, env, after, ready);
  }

  lemma WrittenIsValid(r: Record, before: Snapshot, after: Snapshot, backup: (string, string))
    requires ValidRecord(r) && r.assignment.schema >= 3 && !Inspection(r.assignment) && r.approval.Some? && r.state.Importing?
    requires Postconditions(r.assignment, before, after) && BackupMatches(r.assignment.operation, backup)
    requires if r.assignment.operation.DeleteManaged? then StateGuid(after) == "" else FinalPolicy(r.assignment, after, r.guid)
    ensures ManagedOperation(r.assignment.operation)
    ensures var op := r.assignment.operation;
            var made := MakeResult(SuccessStatus(op), SuccessCodeOf(op), StateGuid(after), EvidenceOf(r.assignment, after, backup.0, backup.1));
            && made.Some? && Success(made.value.status) && ValidManagedResult(made.value)
            && made.value.status == SuccessStatus(op) && made.value.evidence.ManagedEvidence? && made.value.evidence.state == after
            && ValidRecord(r.(state := Terminal, guid := StateGuid(after), result := made))
  {
    hide ValidSnapshot, MakeResult, ManagedMarker, ValidManagedResult, ValidJob, ValidApproval, BackupMatches, UsableGpo, Clean, EvidenceOf;
    NotInspected(r.assignment);
    FinishedRecordIsValid(r, after, backup);
  }

  /** The result of a finished write is witnessed by what was read, and may be saved. */
  lemma WrittenIsWitnessed(q: Process, seen: seq<Snapshot>, after: Snapshot, ready: Ready)
    requires var r := q.view;
             && ValidRecord(r) && r.assignment.schema >= 3 && !Inspection(r.assignment) && r.approval.Some? && r.state.Importing?
             && r.assignment.expected == Some(ready.state) && Postconditions(r.assignment, ready.state, after)
             && BackupMatches(r.assignment.operation, ready.backup)
             && (if r.assignment.operation.DeleteManaged? then StateGuid(after) == "" else FinalPolicy(r.assignment, after, r.guid))
             && (r.assignment.operation.ImportManaged? ==> r.assignment.gpoGuid == "" || Adoption(r.assignment))
    requires |seen| > 2 && seen[0] == ready.state && seen[1] == ready.state && seen[|seen| - 1] == after && q.intent && q.heard.open
    ensures var op := q.view.assignment.operation;
            && ManagedOperation(op)
            && var made := MakeResult(SuccessStatus(op), SuccessCodeOf(op), StateGuid(after), EvidenceOf(q.view.assignment, after, ready.backup.0, ready.backup.1));
            && made.Some? && Success(made.value.status) && Witnessed(q.view.assignment, seen, made.value)
            && made.value.evidence.ManagedEvidence? && (made.value.evidence.backupId, made.value.evidence.backupHash) == ready.backup
            && AllowedSave(q, q.view.(state := Terminal, guid := StateGuid(after), result := made))
  {
    hide ValidSnapshot, ValidRecord, MakeResult, ManagedMarker, Postconditions, FinalPolicy, ValidManagedResult, StateGuid, BackupMatches, EvidenceOf;
    WrittenIsValid(q.view, ready.state, after, ready.backup);
    var op := q.view.assignment.operation;
    MadeNamesBackup(SuccessStatus(op), SuccessCodeOf(op), StateGuid(after), q.view.assignment, after, ready.backup);
  }

  method FinishWritten(ghost p: Process, j: Journal, env: Environment, after: Snapshot, ready: Ready) returns (r: Answer<Receipt>)
    requires Underway(p, j, env) && Willing(p, env) && j.Value() == AfterAll(p, env.trace).view && j.state.Importing?
    requires var seen := SeenIn(env.trace);
             && j.assignment.expected == Some(ready.state) && |seen| > 2
             && seen[0] == ready.state && seen[1] == ready.state && seen[|seen| - 1] == after
    requires Postconditions(j.assignment, ready.state, after) && BackupMatches(j.assignment.operation, ready.backup) && BackupIn(env.trace) == ready.backup
    requires if j.assignment.operation.DeleteManaged? then StateGuid(after) == "" else FinalPolicy(j.assignment, after, j.guid)
    requires j.assignment.operation.ImportManaged? ==> j.assignment.gpoGuid == "" || Adoption(j.assignment)
    modifies j, env
    ensures r.Got? && AllowedAll(p, env.trace) && AfterAll(p, env.trace).view == j.Value() && j.result == Some(r.value) && LastSaved(j, env)
    ensures CallsIn(env.trace) == CallsIn(old(env.trace))
    ensures Witnessed(j.assignment, SeenIn(env.trace), r.value) && NamesBackup(env.trace, r.value) && j.state.Terminal? && Success(r.value.status)
  {
    hide ValidSnapshot, ValidRecord, MakeResult, ManagedMarker, Postconditions, FinalPolicy, ValidManagedResult, StateGuid, BackupMatches,
         AllowedAll, AfterAll, CallsIn, SeenIn, BackupIn, AllowedSave, Witnessed;
    WrittenIsWitnessed(AfterAll(p, env.trace), SeenIn(env.trace), after, ready);
    var op := j.assignment.operation;
    j.guid := StateGuid(after);
    var made := MakeResult(SuccessStatus(op), SuccessCodeOf(op), j.guid, EvidenceOf(j.assignment, after, ready.backup.0, ready.backup.1));
    if made.None? { return Raised(Known("gpo_invalid_job")); }
    j.result := made;
    j.state := Terminal;
    Persist(p, j, env);
    r := Got(made.value);
  }

  lemma CompletedHasResult(r: Record)
    requires ValidRecord(r)
    ensures Completed(r.state) <==> r.result.Some?
    ensures r.guid == "" || UsableGpo(r.guid)
  {
  }

  lemma NothingCalled(p: Process)
    ensures CallsIn([]) == [] && AllowedAll(p, []) && AfterAll(p, []) == p
  {
  }

  lemma PreparedOnlyCallsNothing(j: Job)
    requires j.operation.ImportManaged? && j.gpoGuid != "" && !Adoption(j)
    ensures ManagedCalls(j) == []
  {
  }

  /** How the outcome of an execution follows from what came before it was saved. */
  ghost predicate Concluded(found: Record, trace: seq<Event>, last: Record) {
    var n := |trace| - 1;
    && n >= 0 && trace[n] == Saved(last) && last.result.Some?
    && var events := trace[..n]; var receipt := last.result.value;
       if Success(receipt.status) then Witnessed(found.assignment, SeenIn(trace), receipt) && NamesBackup(trace, receipt)
       else if AfterAll(Loaded(found), events).intent then
         last.state.Reconciliation? && exists code :: Excused(found, events, last.guid, code) && CaughtResult(RequiresReconciliation, code, last.guid) == Some(receipt)
       else
         last.state.Terminal? && exists code :: Excused(found, events, "", code) && CaughtResult(FailedStatus, code, "") == Some(receipt)
  }

  /** Executes a granted managed job; anything caught after the intent needs reconciliation, before it fails. */
  method ExecuteManaged(j: Journal, env: Environment) returns (ending: Ending)
    requires ValidRecord(j.Value()) && env.trace == []
    modifies j, env
    ensures AllowedAll(Loaded(old(j.Value())), env.trace)
    ensures CallsIn(env.trace) <= ManagedCalls(j.assignment)
    ensures ending.Returned? && old(j.state).Granted? && Success(ending.receipt.status) ==> CallsIn(env.trace) == ManagedCalls(j.assignment)
    ensures Completed(old(j.state)) && 3 <= j.assignment.schema <= 4 && !Inspection(j.assignment) ==>
              env.trace == [] && ending == Returned(old(j.result).value)
    ensures !old(j.state).Granted? ==> env.trace == []
    ensures ending.Returned? && old(j.state).Granted? ==>
              && AfterAll(Loaded(old(j.Value())), env.trace).view == j.Value() && j.result == Some(ending.receipt)
              && Concluded(old(j.Value()), env.trace, j.Value()) && ExpiredIsReported(env.trace, ending.receipt)
              && (Success(ending.receipt.status) ==> Witnessed(j.assignment, SeenIn(env.trace), ending.receipt))
              && (ending.receipt.status.FailedStatus? ==> forall e :: e in env.trace ==> !e.Mutated?)
              && (Success(ending.receipt.status) || ending.receipt.status.FailedStatus? || ending.receipt.status.RequiresReconciliation?)
  {
    hide ValidRecord, CaughtResult, Witnessed, CallsIn, SeenIn, BackupIn, ManagedCalls, AllowedAll, AfterAll, Adoption, Excused, Approached, Executable;
    ghost var p := Loaded(j.Value());
    NothingCalled(p);
    CompletedHasResult(j.Value());
    if j.assignment.schema < 3 || j.assignment.schema > 4 || Inspection(j.assignment) { return Escaped; }
    if Completed(j.state) { return Returned(j.result.value); }
    if !j.state.Granted? { return Escaped; }
    var checked, done := Preflight(p, j, env);
    if checked.Raised? {
      ending := Fail(p, j, env, checked.code);
    } else if done.Some? {
      PreparedOnlyCallsNothing(j.assignment);
      ending := Returned(done.value);
    } else {
      EnterIntent(p, j, env);
      var written := WriteAndVerify(p, j, env, checked.value);
      if written.Got? { ending := Returned(written.value); }
      else { ending := Reconcile(p, j, env, written.code); }
    }
    if ending.Returned? { ExpiryIsReported(p.view, env.trace, j.Value()); }
  }

  /**
   An authority that was not affirmed is the last thing before the outcome, which reports it; if it was the first answer,
   nothing else happened. Without the approval being used nothing but a failure is recorded.
   */
  ghost predicate ExpiredIsReported(trace: seq<Event>, receipt: Receipt) {
    && (Authorised(false) in trace ==>
          && |trace| >= 2 && trace[|trace| - 2] == Authorised(false) && receipt.code == AUTHORITY_EXPIRED
          && (receipt.status.FailedStatus? || receipt.status.RequiresReconciliation?)
          && (Consumed !in trace ==> receipt.status.FailedStatus?))
    && (trace != [] && trace[0] == Authorised(false) ==>
          |trace| == 2 && trace[1].Saved? && receipt == Receipt(FailedStatus, AUTHORITY_EXPIRED, "", NoEvidence))
  }

  lemma GrantedHasNoGuid(r: Record)
    requires ValidRecord(r) && (r.state.Granted? || r.state.Prepared? || r.state.Creating?)
    ensures r.guid == "" && r.result.None?
  {
  }

  /** Caught before the intent: nothing was written. */
  method Fail(ghost p: Process, j: Journal, env: Environment, code: Code) returns (ending: Ending)
    requires p == Loaded(j.Value()) && ValidRecord(p.view) && j.state.Granted? && !Inspection(j.assignment)
    requires AllowedAll(p, env.trace) && AfterAll(p, env.trace).view == p.view && !AfterAll(p, env.trace).intent
    requires Excused(p.view, env.trace, "", code)
    modifies j, env
    ensures ending.Returned? && ending.receipt.status.FailedStatus? && j.result == Some(ending.receipt)
    ensures CallsIn(env.trace) == CallsIn(old(env.trace))
    ensures AllowedAll(p, env.trace) && AfterAll(p, env.trace).view == j.Value() && Concluded(p.view, env.trace, j.Value())
    ensures forall e :: e in env.trace ==> !e.Mutated?
  {
    hide ValidRecord, CaughtResult, Excused, AllowedAll, AfterAll, CallsIn, SeenIn, BackupIn, PreparedOnly, Witnessed;
    CaughtRecordIsValid(j.Value(), FailedStatus, code, "");
    GrantedHasNoGuid(j.Value());
    var failed := CaughtResult(FailedStatus, code, "");
    j.state, j.result := Terminal, failed;
    ghost var before := env.trace;
    Persist(p, j, env);
    assert env.trace[..|before|] == before;
    NoIntentNoMutation(p, env.trace);
    ending := Returned(failed.value);
  }

  method EnterIntent(ghost p: Process, j: Journal, env: Environment)
    requires Executable(p.view) && j.Value() == p.view && p.loaded
    requires AllowedAll(p, env.trace) && (var q := AfterAll(p, env.trace); q == p.(consumed := true, heard := q.heard) && q.heard.open)
    modifies j, env
    ensures Underway(p, j, env) && j.Value() == AfterAll(p, env.trace).view && j.state.Creating? && j.guid == ""
    ensures CallsIn(env.trace) == CallsIn(old(env.trace)) && SeenIn(env.trace) == SeenIn(old(env.trace)) && BackupIn(env.trace) == BackupIn(old(env.trace)) && AfterAll(p, env.trace).heard.open
  {
    hide ValidJob, ValidApproval, Clean, AllowedAll, AfterAll, CallsIn, SeenIn, BackupIn;
    j.state := Creating;
    Persist(p, j, env);
  }

  /** Caught after the intent: the outcome is unknown, whatever was written. */
  method Reconcile(ghost p: Process, j: Journal, env: Environment, code: Code) returns (ending: Ending)
    requires Underway(p, j, env) && p == Loaded(p.view) && Excused(p.view, env.trace, j.guid, code)
    modifies j, env
    ensures AllowedAll(p, env.trace) && CallsIn(env.trace) == CallsIn(old(env.trace))
    ensures ending.Returned? ==> AfterAll(p, env.trace).view == j.Value() && j.result == Some(ending.receipt)
                                 && ending.receipt.status.RequiresReconciliation? && Concluded(p.view, env.trace, j.Value())
  {
    hide Excused, AllowedAll, AfterAll, CallsIn, SeenIn, BackupIn, ValidRecord;
    var uncertain := CaughtResult(RequiresReconciliation, code, j.guid);
    if uncertain.None? { return Escaped; }
    UsableWhenCaught(RequiresReconciliation, code, j.guid);
    CaughtRecordIsValid(AfterAll(p, env.trace).view, RequiresReconciliation, code, j.guid);
    j.state, j.result := Reconciliation, uncertain;
    ghost var before := env.trace;
    Persist(p, j, env);
    assert env.trace[..|before|] == before;
    ending := Returned(uncertain.value);
  }

  lemma {:induction false} NothingAfterNegative(r: Record, events: seq<Event>, k: nat)
    requires AllowedAll(Loaded(r), events) && k < |events| && Negative(events[k])
    ensures !AfterAll(Loaded(r), events).heard.open
    ensures forall m | k < m < |events| :: events[m].Saved?
    decreases |events|
  {
    hide ValidRecord, PreparedOnly;
    var n := |events| - 1;
    if k < n {
      NothingAfterNegative(r, events[..n], k);
      assert events[..n][k] == events[k];
      assert forall m | k < m < n :: events[m] == events[..n][m];
    }
  }

  lemma UsableWhenCaught(s: Status, code: Code, guid: string)
    requires CaughtResult(s, code, guid).Some?
    ensures guid == "" || UsableGpo(guid)
  {
    hide UsableGpo;
  }

  lemma {:induction false} NoIntentNoMutation(p: Process, events: seq<Event>)
    requires AllowedAll(p, events) && !AfterAll(p, events).intent
    ensures forall e :: e in events ==> !e.Mutated?
    decreases |events|
  {
    hide ValidRecord;
    if events != [] {
      NoIntentNoMutation(p, events[..|events| - 1]);
    }
  }

  // ----- Inspection -----

  /** What an inspection saw, recorded as its result. */
  lemma InspectedRecordIsValid(r: Record, state: Snapshot)
    requires ValidRecord(r) && Inspection(r.assignment) && r.state.Prepared? && ValidSnapshot(state)
    ensures var made := MakeResult(Inspected, InspectedCode, StateGuid(state), EvidenceOf(r.assignment, state, "", ""));
            && made.Some? && made.value.status.Inspected?
            && ValidRecord(r.(state := Terminal, guid := StateGuid(state), result := made))
  {
    hide ValidSnapshot, IsHash, ValidUuid, StateGuid, UsableGpo, ValidApproval, Clean, ManagedMarker;
    StateGuidIsUsable(state);
  }

  /** How an inspection ended: what it read between two affirmations, or what it stopped at. */
  ghost predicate Observed(found: Record, trace: seq<Event>, last: Record) {
    var n := |trace| - 1;
    && n >= 0 && trace[n] == Saved(last) && last.result.Some? && last.state.Terminal?
    && var events := trace[..n]; var receipt := last.result.value; var job := found.assignment;
       if receipt.status.Inspected? then
         && n == 4 && events[1].Seen? && events[2].Sized?
         && events == [Authorised(true), Seen(events[1].snapshot), Sized(events[2].fits), Authorised(true)]
         && StateProblem(job, events[1].snapshot, events[2].fits).None? && receipt.evidence == EvidenceOf(job, events[1].snapshot, "", "")
         && receipt.guid == StateGuid(events[1].snapshot)
       else exists code :: Hindered(job, events, code) && CaughtResult(FailedStatus, code, "") == Some(receipt)
  }

  /** Why an inspection stopped. */
  ghost predicate Hindered(job: Job, events: seq<Event>, code: Code) {
    && events != []
    && var n := |events| - 1;
       match events[n]
       case Thrown(thrown) => code == thrown
       case Authorised(current) => !current && code == AUTHORITY_EXPIRED
       case Sized(fits) => n > 0 && events[n - 1].Seen? && StateProblem(job, events[n - 1].snapshot, fits) == Some(code)
       case _ => false
  }

  /** Reads the state once; a failure is recorded as failed, and nothing is ever written to the directory. */
  method InspectManaged(j: Journal, env: Environment) returns (ending: Ending)
    requires ValidRecord(j.Value()) && env.trace == []
    modifies j, env
    ensures ending.Escaped? ==> env.trace == [] && j.Value() == old(j.Value())
    ensures ending.Returned? ==>
              && AllowedAll(Loaded(old(j.Value())), env.trace) && CallsIn(env.trace) == [] && Consumed !in env.trace
              && j.result == Some(ending.receipt) && j.state.Terminal? && Observed(old(j.Value()), env.trace, j.Value())
              && (ending.receipt.status.Inspected? || ending.receipt.status.FailedStatus?) && ExpiredIsReported(env.trace, ending.receipt)
  {
    hide ValidRecord, StateProblem, CaughtResult, MakeResult, EvidenceOf, AllowedAll, AfterAll, CallsIn, SeenIn, BackupIn, Hindered, ExpiredIsReported;
    ghost var p := Loaded(j.Value());
    if !Inspection(j.assignment) || !j.state.Prepared? || j.approval.Some? || j.deadline != 0 { return Escaped; }
    GrantedHasNoGuid(j.Value());
    NothingHeard(p);
    var looked := Look(p, j, env);
    ghost var before := env.trace;
    if looked.Got? {
      AcceptedIsValid(j.assignment, looked.value);
      InspectedRecordIsValid(j.Value(), looked.value);
      j.guid := StateGuid(looked.value);
      j.result := MakeResult(Inspected, InspectedCode, j.guid, EvidenceOf(j.assignment, looked.value, "", ""));
      MadeIsTheReceipt(Inspected, InspectedCode, j.guid, EvidenceOf(j.assignment, looked.value, "", ""));
    } else {
      CaughtRecordIsValid(j.Value(), FailedStatus, looked.code, "");
      j.result := CaughtResult(FailedStatus, looked.code, "");
    }
    j.state := Terminal;
    Persist(p, j, env);
    assert env.trace[..|before|] == before;
    ending := Returned(j.result.value);
    LookIsReported(p.view, env.trace, j.Value());
  }

  lemma MadeIsTheReceipt(s: Status, c: Code, guid: string, e: Evidence)
    ensures MakeResult(s, c, guid, e).Some? ==> MakeResult(s, c, guid, e).value == Receipt(s, c, guid, e)
  {
  }

  lemma AcceptedIsValid(j: Job, s: Snapshot)
    requires exists fits: bool :: StateProblem(j, s, fits).None?
    ensures ValidSnapshot(s)
  {
  }

  /** The guarded reads of an inspection. */
  method Look(ghost p: Process, j: Journal, env: Environment) returns (r: Answer<Snapshot>)
    requires p == Loaded(j.Value()) && j.state.Prepared? && env.trace == [] && Reading(p, env) && AfterAll(p, env.trace) == p
    modifies env
    ensures Reading(p, env) && |env.trace| <= 4 && Consumed !in env.trace
    ensures r.Raised? ==> Hindered(j.assignment, env.trace, r.code)
    ensures r.Got? ==>
              && AffirmedAround(AfterAll(p, env.trace).heard) && |env.trace| == 4 && env.trace[2].Sized?
              && env.trace == [Authorised(true), Seen(r.value), Sized(env.trace[2].fits), Authorised(true)]
              && StateProblem(j.assignment, r.value, env.trace[2].fits).None?
  {
    hide StateProblem, AllowedAll, AfterAll, CallsIn, SeenIn, BackupIn;
    var authority := env.Authority(p);
    if authority.Raised? { return Raised(authority.code); }
    if !authority.value { return Raised(AUTHORITY_EXPIRED); }
    r := env.Inspect(p);
    if r.Raised? { return; }
    var sizeFits := env.SizeFits(p);
    var problem := StateProblem(j.assignment, r.value, sizeFits);
    if problem.Some? { return Raised(problem.value); }
    authority := env.Authority(p);
    if authority.Raised? { return Raised(authority.code); }
    if !authority.value { return Raised(AUTHORITY_EXPIRED); }
  }

  // ----- What is reported when authority was not affirmed -----

  lemma NegativeIsBeforeTheEnd(r: Record, trace: seq<Event>, e: Event)
    requires AllowedAll(Loaded(r), trace) && e in trace && Negative(e) && trace[|trace| - 1].Saved?
    requires |trace| >= 2 && !trace[|trace| - 2].Saved?
    ensures trace[|trace| - 2] == e
  {
    hide AllowedAll, AfterAll;
    var k :| 0 <= k < |trace| && trace[k] == e;
    NothingAfterNegative(r, trace, k);
  }

  lemma ExpiredReceipt(s: Status, guid: string, receipt: Receipt)
    requires s.FailedStatus? || s.RequiresReconciliation?
    requires CaughtResult(s, AUTHORITY_EXPIRED, guid) == Some(receipt)
    ensures receipt == Receipt(s, AUTHORITY_EXPIRED, guid, NoEvidence)
  {
    hide UsableGpo;
  }

  lemma LastWasAllowed(p: Process, events: seq<Event>)
    requires AllowedAll(p, events) && events != []
    ensures var n := |events| - 1;
            && AllowedAll(p, events[..n]) && Allowed(AfterAll(p, events[..n]), events[n])
            && AfterAll(p, events) == After(AfterAll(p, events[..n]), events[n])
  {
  }

  lemma SuccessIsOpen(q: Process, r: Record)
    requires AllowedSave(q, r) && r.result.Some? && (Success(r.result.value.status) || r.result.value.status.Inspected?)
    ensures q.heard.open
  {
    SavedResultIsCompleted(r);
    hide ValidRecord;
  }

  lemma SavedResultIsCompleted(r: Record)
    requires ValidRecord(r) && r.result.Some?
    ensures Completed(r.state)
    ensures r.state.Reconciliation? ==> !Success(r.result.value.status) && !r.result.value.status.Inspected?
  {
  }

  lemma ConsumedBeforeIntent(found: Record, events: seq<Event>)
    requires AllowedAll(Loaded(found), events) && AfterAll(Loaded(found), events).intent
    ensures Consumed in events
  {
    hide AllowedAll, AfterAll;
    IntentFollowsConsumption(found, events);
    var a, b :| 0 <= a < b < |events| && events[a].Consumed? && events[b].Saved? && events[b].record.state.Creating?;
    assert events[a] == Consumed;
  }

  lemma ClosedIsNoSuccess(found: Record, trace: seq<Event>, last: Record)
    requires AllowedAll(Loaded(found), trace) && trace != [] && trace[|trace| - 1] == Saved(last) && last.result.Some?
    requires Authorised(false) in trace
    ensures !Success(last.result.value.status) && !last.result.value.status.Inspected?
  {
    hide AllowedAll, AfterAll, AllowedSave, ValidRecord, After;
    var n := |trace| - 1;
    LastWasAllowed(Loaded(found), trace);
    var k :| 0 <= k < |trace| && trace[k] == Authorised(false);
    assert trace[..n][k] == Authorised(false);
    NothingAfterNegative(found, trace[..n], k);
    if Success(last.result.value.status) || last.result.value.status.Inspected? { SuccessIsOpen(AfterAll(Loaded(found), trace[..n]), last); }
  }

  lemma RefusedAtOnce(found: Record)
    ensures !AfterAll(Loaded(found), [Authorised(false)]).intent
  {
    assert [Authorised(false)][..0] == [];
  }

  lemma ExpiryIsReported(found: Record, trace: seq<Event>, last: Record)
    requires AllowedAll(Loaded(found), trace) && Concluded(found, trace, last)
    ensures ExpiredIsReported(trace, last.result.value)
  {
    hide AllowedAll, AfterAll, CaughtResult, ValidRecord, Witnessed, StateProblem, PreparedProblem, FinalMet, UsableGpo, ValidUuid, SeenIn, BackupIn;
    var n := |trace| - 1;
    var events, receipt := trace[..n], last.result.value;
    if Authorised(false) in trace {
      ClosedIsNoSuccess(found, trace, last);
      LastWasAllowed(Loaded(found), trace);
      var intent := AfterAll(Loaded(found), events).intent;
      var id := if intent then last.guid else "";
      var status := if intent then RequiresReconciliation else FailedStatus;
      var code :| Excused(found, events, id, code) && CaughtResult(status, code, id) == Some(receipt);
      assert events != [] && !events[n - 1].Saved?;
      NegativeIsBeforeTheEnd(found, trace, Authorised(false));
      assert events[n - 1] == Authorised(false);
      ExpiredReceipt(status, id, receipt);
      if intent { ConsumedBeforeIntent(found, events); assert Consumed in trace; }
      if trace[0] == Authorised(false) {
        NothingAfterNegative(found, trace, 0);
        assert events == [Authorised(false)];
        RefusedAtOnce(found);
      }
    }
  }

  lemma LookIsReported(found: Record, trace: seq<Event>, last: Record)
    requires AllowedAll(Loaded(found), trace) && Observed(found, trace, last)
    ensures ExpiredIsReported(trace, last.result.value)
  {
    hide AllowedAll, AfterAll, CaughtResult, ValidRecord, StateProblem, EvidenceOf;
    var n := |trace| - 1;
    var events, receipt := trace[..n], last.result.value;
    if Authorised(false) in trace {
      ClosedIsNoSuccess(found, trace, last);
      var code :| Hindered(found.assignment, events, code) && CaughtResult(FailedStatus, code, "") == Some(receipt);
      NegativeIsBeforeTheEnd(found, trace, Authorised(false));
      assert events[n - 1] == Authorised(false);
      ExpiredReceipt(FailedStatus, "", receipt);
      if trace[0] == Authorised(false) { NothingAfterNegative(found, trace, 0); }
    }
  }
}
