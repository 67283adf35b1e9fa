/**
 The execution claim, the execution of an unlinked pilot GPO, and the fence
 that the parent process puts up when its worker was lost.
 */
module GpoPilot {
  import opened Wrappers
  import opened GpoRecord
  import opened GpoProtocolSteps
  import opened GpoManaged

  // ----- The claim -----

  /** The reply to a claim; `extraFields` counts fields beyond the ones it may carry. */
  datatype Claim = Claim(authorized: bool, mode: string, job: Job, approval: Option<Approval>, extraFields: nat)

  datatype Claimed = Authorized | Refused | ClaimEscaped

  /** The reply is about this job and has exactly the fields its kind allows. */
  predicate WellBound(r: Record, c: Claim) {
    && c.job == r.assignment && c.extraFields == 0
    && (c.approval.Some? <==> r.assignment.schema >= 2 && c.authorized && c.mode == "execute")
  }

  predicate ApprovalStands(r: Record, c: Claim, expected: Option<Approval>, current: bool) {
    if r.assignment.schema == 1 then expected.None?
    else c.approval.Some? && ValidApproval(c.approval.value, r.assignment, r.deviceUri) && c.approval == expected && current
  }

  lemma GrantIsValid(r: Record, c: Claim, expected: Option<Approval>, current: bool, deadline: nat)
    requires ValidRecord(r) && r.state.Granted? && WellBound(r, c) && ApprovalStands(r, c, expected, current)
    requires 0 < deadline < 0x8000_0000_0000_0000 && c.authorized && c.mode == "execute"
    ensures ValidRecord(r.(deadline := deadline, approval := c.approval))
  {
    hide ValidJob, ValidApproval, Clean, UsableGpo;
  }

  /**
   Records the reply to the one claim for a granted record: a grant with its deadline and approval, a
   confirmed cancellation, or an uncertain claim. `current`: the approval is in force now.
   */
  method RecordClaim(j: Journal, env: Environment, c: Claim, deadline: nat, expected: Option<Approval>, current: bool)
    returns (r: Claimed)
    requires ValidRecord(j.Value()) && env.trace == []
    modifies j, env
    ensures AllowedAll(Claiming(old(j.Value())), env.trace)
    ensures r.ClaimEscaped? ==> env.trace == []
    ensures !r.ClaimEscaped? ==> old(j.state).Granted? && old(j.deadline) == 0 && env.trace == [Saved(j.Value())]
                                 && WellBound(old(j.Value()), c) && !Inspection(j.assignment)
    ensures r.Authorized? <==> !r.ClaimEscaped? && c.authorized && c.mode == "execute"
    ensures r.Authorized? ==> j.Value() == old(j.Value()).(deadline := deadline, approval := c.approval)
                              && ApprovalStands(old(j.Value()), c, expected, current)
    ensures r.Refused? ==> j.result.Some? && Completed(j.state)
                           && (if !c.authorized && c.mode == "cancelled"
                               then j.state.Terminal? && j.result.value == Receipt(FailedStatus, AUTHORITY_EXPIRED, "", NoEvidence)
                               else j.state.Reconciliation?
                                    && j.result.value == Receipt(RequiresReconciliation, Known("gpo_claim_uncertain"), "", NoEvidence))
  {
    hide ValidRecord, ValidApproval;
    ghost var p := Claiming(j.Value());
    NothingHeard(p);
    if !j.state.Granted? || j.deadline != 0 || j.guid != "" || j.result.Some? || j.approval.Some? || deadline == 0 { return ClaimEscaped; }
    if Inspection(j.assignment) || !WellBound(j.Value(), c) { return ClaimEscaped; }
    if j.assignment.schema == 1 && expected.Some? { return ClaimEscaped; }
    if c.authorized && c.mode == "execute" {
      if !ApprovalStands(j.Value(), c, expected, current) { return ClaimEscaped; }
      // A deadline outside the document's integers makes the save throw.
      if deadline >= 0x8000_0000_0000_0000 { return ClaimEscaped; }
      GrantIsValid(j.Value(), c, expected, current, deadline);
      j.approval, j.deadline := c.approval, deadline;
      Persist(p, j, env);
      return Authorized;
    }
    var cancelled := !c.authorized && c.mode == "cancelled";
    var status := if cancelled then FailedStatus else RequiresReconciliation;
    var code := if cancelled then AUTHORITY_EXPIRED else Known("gpo_claim_uncertain");
    CaughtRecordIsValid(j.Value(), status, code, "");
    KnownIsCaught(status, code, "");
    MadeIsTheReceipt(status, code, "", NoEvidence);
    j.state := if cancelled then Terminal else Reconciliation;
    j.result := MakeResult(status, code, "", NoEvidence);
    Persist(p, j, env);
    r := Refused;
  }

  lemma KnownIsCaught(s: Status, c: Code, guid: string)
    requires c.Known? && ((s.FailedStatus? && guid == "") || s.RequiresReconciliation?) && (guid == "" || UsableGpo(guid))
    ensures MakeResult(s, c, guid, NoEvidence).Some? && CaughtResult(s, c, guid) == MakeResult(s, c, guid, NoEvidence)
  {
    hide UsableGpo;
  }

  // ----- The pilot -----

  ghost predicate Underway(p: Process, j: Journal, env: Environment)
    reads j, env
  {
    var q := AfterAll(p, env.trace);
    && ValidRecord(p.view) && p.view.assignment.schema < 3 && p.loaded && AllowedAll(p, env.trace)
    && q.consumed && q.intent && Writing(q.view.state) && ValidRecord(q.view) && q.view == j.Value().(guid := q.view.guid)
    && j.assignment == p.view.assignment && j.deviceUri == p.view.deviceUri
    && (q.view.guid != "" ==> q.view.guid == j.guid)
  }

  /** The directory calls of a pilot, in order. */
  const PILOT_CALLS := [CreateCall, DisableCall, IdentifyCall, ImportCall, DisableCall]

  method Write(ghost p: Process, j: Journal, env: Environment, call: Call) returns (r: Answer<bool>)
    requires Underway(p, j, env) && Willing(p, env) && !call.LinkCall?
    modifies env
    ensures Underway(p, j, env) && AfterAll(p, env.trace).view == AfterAll(p, old(env.trace)).view
    ensures CallsIn(env.trace) == CallsIn(old(env.trace)) + [call]
    ensures r.Got? ==> Willing(p, env)
    ensures r.Raised? ==> LastThrew(env, r.code)
  {
    hide ValidRecord, AllowedAll, AfterAll, CallsIn, SeenIn, BackupIn;
    r := env.Mutate(p, call);
  }

  /** The reads of a pilot before its approval is consumed: authority, the provider's own check, authority. */
  const PILOT_APPROACH := [Authorised(true), Checked, Authorised(true)]

  /** Why a pilot stopped after `events` with this code; `id` is the GPO that was named by then. */
  ghost predicate Excused(found: Record, events: seq<Event>, id: string, code: Code) {
    if events == [] then found.assignment.schema >= 2 && (found.deadline == 0 || found.approval.None?) && code == Known("gpo_portal_approval_invalid")
    else
      match events[|events| - 1]
      case Thrown(thrown) => code == thrown
      case Authorised(current) => !current && code == AUTHORITY_EXPIRED
      case Named(guid) => !UsableGpo(guid) && code == VERIFICATION_FAILED
      case Verified(evidence) => MakeResult(Staged, StagedUnlinked, id, evidence).None? && code == Known("gpo_invalid_job")
      case _ => false
  }

  lemma ThrewIsExcused(found: Record, env: Environment, id: string, code: Code)
    requires LastThrew(env, code)
    ensures Excused(found, env.trace, id, code)
  {
  }

  lemma StopIsExcused(found: Record, before: seq<Event>, e: Event, id: string, code: Code)
    requires (e == Thrown(code)) || (e == Authorised(false) && code == AUTHORITY_EXPIRED)
             || (e.Named? && !UsableGpo(e.guid) && code == VERIFICATION_FAILED)
    ensures Excused(found, before + [e], id, code)
  {
    hide UsableGpo;
  }

  /** The checks before the approval is consumed, and the consumption. */
  method Preflight(ghost p: Process, j: Journal, env: Environment) returns (r: Answer<bool>)
    requires p == Loaded(j.Value()) && ValidRecord(p.view) && j.state.Granted? && j.assignment.schema < 3 && env.trace == []
    modifies env
    ensures AllowedAll(p, env.trace) && CallsIn(env.trace) == []
    ensures r.Raised? ==> && Excused(p.view, env.trace, "", r.code)
                          && AfterAll(p, env.trace).view == p.view && !AfterAll(p, env.trace).intent
    ensures r.Got? ==> && env.trace == PILOT_APPROACH + [Consumed] && (j.assignment.schema == 2 ==> j.approval.Some?)
                       && var q := AfterAll(p, env.trace); q == p.(consumed := true, heard := q.heard) && q.heard.open
  {
    hide ValidRecord, AllowedAll, AfterAll, CallsIn, SeenIn, BackupIn, Excused;
    NothingHeard(p);
    if j.assignment.schema >= 2 && (j.deadline == 0 || j.approval.None?) {
      UnapprovedPilot(p.view);
      return Raised(Known("gpo_portal_approval_invalid"));
    }
    ghost var t := env.trace;
    var authority := env.Authority(p);
    if authority.Raised? { StopIsExcused(p.view, t, Thrown(authority.code), "", authority.code); return Raised(authority.code); }
    if !authority.value { StopIsExcused(p.view, t, Authorised(false), "", AUTHORITY_EXPIRED); return Raised(AUTHORITY_EXPIRED); }
    t := env.trace;
    var checked := env.Prepare(p);
    if checked.Raised? { StopIsExcused(p.view, t, Thrown(checked.code), "", checked.code); return Raised(checked.code); }
    t := env.trace;
    authority := env.Authority(p);
    if authority.Raised? { StopIsExcused(p.view, t, Thrown(authority.code), "", authority.code); return Raised(authority.code); }
    if !authority.value { StopIsExcused(p.view, t, Authorised(false), "", AUTHORITY_EXPIRED); return Raised(AUTHORITY_EXPIRED); }
    t := env.trace;
    var consumed := env.Consume(p);
    if consumed.Raised? { StopIsExcused(p.view, t, Thrown(consumed.code), "", consumed.code); return Raised(consumed.code); }
    r := Got(true);
  }

  lemma UnapprovedPilot(found: Record)
    requires found.assignment.schema >= 2 && (found.deadline == 0 || found.approval.None?)
    ensures Excused(found, [], "", Known("gpo_portal_approval_invalid"))
  {
  }

  lemma StagedIsValid(r: Record, e: Evidence)
    requires ValidRecord(r) && r.state.Importing? && r.assignment.schema < 3
    requires MakeResult(Staged, StagedUnlinked, r.guid, e).Some?
    ensures ValidRecord(r.(state := Terminal, result := MakeResult(Staged, StagedUnlinked, r.guid, e)))
  {
    hide ValidJob, ValidApproval, Clean, UsableGpo, ValidSnapshot;
  }

  /** Isolates, fills and verifies the GPO that was just created. */
  method FillPilotGpo(ghost p: Process, j: Journal, env: Environment) returns (r: Answer<Receipt>)
    requires Underway(p, j, env) && Willing(p, env) && AfterAll(p, env.trace).view == j.Value() && j.state.Created? && UsableGpo(j.guid)
    requires CallsIn(env.trace) == [CreateCall]
    modifies j, env
    ensures CallsIn(env.trace) <= PILOT_CALLS && (r.Got? ==> CallsIn(env.trace) == PILOT_CALLS)
    ensures r.Got? ==> AllowedAll(p, env.trace) && AfterAll(p, env.trace).view == j.Value() && j.result == Some(r.value)
                       && r.value.status.Staged? && j.state.Terminal? && LastSaved(j, env)
    ensures r.Raised? ==> Underway(p, j, env) && UsableGpo(j.guid) && Excused(p.view, env.trace, j.guid, r.code)
  {
    hide ValidRecord, UsableGpo, MakeResult, CallsIn, SeenIn, BackupIn, AllowedAll, AfterAll, Excused;
    PhaseIsValid(j.Value(), Importing, j.guid);
    var done := Write(p, j, env, DisableCall);
    if done.Raised? { ThrewIsExcused(p.view, env, j.guid, done.code); return Raised(done.code); }
    done := Write(p, j, env, IdentifyCall);
    if done.Raised? { ThrewIsExcused(p.view, env, j.guid, done.code); return Raised(done.code); }
    j.state := Importing;
    Persist(p, j, env);
    r := ImportPilotGpo(p, j, env);
  }

  /** Imports into the named GPO, isolates it again and verifies it. */
  method ImportPilotGpo(ghost p: Process, j: Journal, env: Environment) returns (r: Answer<Receipt>)
    requires Underway(p, j, env) && Willing(p, env) && AfterAll(p, env.trace).view == j.Value() && j.state.Importing? && UsableGpo(j.guid)
    requires CallsIn(env.trace) == [CreateCall, DisableCall, IdentifyCall]
    modifies j, env
    ensures CallsIn(env.trace) <= PILOT_CALLS && (r.Got? ==> CallsIn(env.trace) == PILOT_CALLS)
    ensures r.Got? ==> AllowedAll(p, env.trace) && AfterAll(p, env.trace).view == j.Value() && j.result == Some(r.value)
                       && r.value.status.Staged? && j.state.Terminal? && LastSaved(j, env)
    ensures r.Raised? ==> Underway(p, j, env) && UsableGpo(j.guid) && Excused(p.view, env.trace, j.guid, r.code)
  {
    hide ValidRecord, UsableGpo, MakeResult, CallsIn, SeenIn, BackupIn, AllowedAll, AfterAll, Excused;
    var done := Write(p, j, env, ImportCall);
    if done.Raised? { ThrewIsExcused(p.view, env, j.guid, done.code); return Raised(done.code); }
    done := Write(p, j, env, DisableCall);
    if done.Raised? { ThrewIsExcused(p.view, env, j.guid, done.code); return Raised(done.code); }
    var verified := env.Verify(p);
    if verified.Raised? { ThrewIsExcused(p.view, env, j.guid, verified.code); return Raised(verified.code); }
    r := FinishPilot(p, j, env, verified.value);
  }

  /** Records the verified pilot as staged. */
  method FinishPilot(ghost p: Process, j: Journal, env: Environment, evidence: Evidence) returns (r: Answer<Receipt>)
    requires Underway(p, j, env) && Willing(p, env) && AfterAll(p, env.trace).view == j.Value() && j.state.Importing? && UsableGpo(j.guid)
    requires env.trace != [] && env.trace[|env.trace| - 1] == Verified(evidence)
    modifies j, env
    ensures CallsIn(env.trace) == CallsIn(old(env.trace))
    ensures r.Got? ==> AllowedAll(p, env.trace) && AfterAll(p, env.trace).view == j.Value() && j.result == Some(r.value)
                       && r.value.status.Staged? && j.state.Terminal? && LastSaved(j, env)
    ensures r.Raised? ==> Underway(p, j, env) && UsableGpo(j.guid) && Excused(p.view, env.trace, j.guid, r.code)
  {
    hide ValidRecord, UsableGpo, MakeResult, CallsIn, SeenIn, BackupIn, AllowedAll, AfterAll;
    var staged := MakeResult(Staged, StagedUnlinked, j.guid, evidence);
    if staged.None? { return Raised(Known("gpo_invalid_job")); }
    StagedIsValid(j.Value(), evidence);
    MadeIsTheReceipt(Staged, StagedUnlinked, j.guid, evidence);
    j.state, j.result := Terminal, staged;
    Persist(p, j, env);
    r := Got(staged.value);
  }

  /** Creates, isolates, fills and verifies the pilot after its intent was saved. */
  method CreatePilotGpo(ghost p: Process, j: Journal, env: Environment) returns (r: Answer<Receipt>)
    requires Underway(p, j, env) && AfterAll(p, env.trace).heard.open
    requires AfterAll(p, env.trace).view == j.Value() && j.state.Creating? && CallsIn(env.trace) == []
    modifies j, env
    ensures CallsIn(env.trace) <= PILOT_CALLS && (r.Got? ==> CallsIn(env.trace) == PILOT_CALLS)
    ensures r.Got? ==> AllowedAll(p, env.trace) && AfterAll(p, env.trace).view == j.Value() && j.result == Some(r.value)
                       && r.value.status.Staged? && j.state.Terminal? && LastSaved(j, env)
    ensures r.Raised? ==> Underway(p, j, env) && (j.guid == "" || UsableGpo(j.guid)) && Excused(p.view, env.trace, j.guid, r.code)
  {
    hide ValidRecord, UsableGpo, MakeResult, CallsIn, SeenIn, BackupIn, AllowedAll, AfterAll, Excused;
    CreatingHasNoGuid(j.Value());
    ghost var t := env.trace;
    var authority := env.Authority(p);
    if authority.Raised? { StopIsExcused(p.view, t, Thrown(authority.code), "", authority.code); return Raised(authority.code); }
    if !authority.value { StopIsExcused(p.view, t, Authorised(false), "", AUTHORITY_EXPIRED); return Raised(AUTHORITY_EXPIRED); }
    r := CreateAndFill(p, j, env);
  }

  method CreateAndFill(ghost p: Process, j: Journal, env: Environment) returns (r: Answer<Receipt>)
    requires Underway(p, j, env) && Willing(p, env) && AfterAll(p, env.trace).view == j.Value() && j.state.Creating?
    requires CallsIn(env.trace) == [] && j.guid == ""
    modifies j, env
    ensures CallsIn(env.trace) <= PILOT_CALLS && (r.Got? ==> CallsIn(env.trace) == PILOT_CALLS)
    ensures r.Got? ==> AllowedAll(p, env.trace) && AfterAll(p, env.trace).view == j.Value() && j.result == Some(r.value)
                       && r.value.status.Staged? && j.state.Terminal? && LastSaved(j, env)
    ensures r.Raised? ==> Underway(p, j, env) && (j.guid == "" || UsableGpo(j.guid)) && Excused(p.view, env.trace, j.guid, r.code)
  {
    hide ValidRecord, UsableGpo, MakeResult, CallsIn, SeenIn, BackupIn, AllowedAll, AfterAll, Excused;
    ghost var t := env.trace + [Mutated(CreateCall)];
    var created := env.Create(p);
    if created.Raised? { StopIsExcused(p.view, t, Thrown(created.code), "", created.code); return Raised(created.code); }
    if !UsableGpo(created.value) {
      StopIsExcused(p.view, t, Named(created.value), "", VERIFICATION_FAILED);
      return Raised(VERIFICATION_FAILED);
    }
    PhaseIsValid(j.Value(), Created, created.value);
    j.guid := created.value;
    j.state := Created;
    Persist(p, j, env);
    r := FillPilotGpo(p, j, env);
  }

  lemma CreatingHasNoGuid(r: Record)
    requires ValidRecord(r) && r.state.Creating?
    ensures r.guid == ""
  {
  }

  /** The code a caught exception is reported with; a success code makes building the result throw again. */
  function ReportedCode(c: Code): Code { if c.Unknown? then PROVIDER_FAILED else c }

  lemma CaughtPilotIsValid(r: Record, s: Status, c: Code, guid: string)
    requires ValidRecord(r) && !Completed(r.state) && r.assignment.schema < 3
    requires (s.FailedStatus? && guid == "") || s.RequiresReconciliation?
    requires MakeResult(s, c, guid, NoEvidence).Some?
    ensures ValidRecord(r.(state := if s.FailedStatus? then Terminal else Reconciliation, guid := guid, result := MakeResult(s, c, guid, NoEvidence)))
  {
    hide ValidJob, ValidApproval, Clean;
  }

  /** How the outcome of a pilot follows from what came before it was saved. */
  ghost predicate Concluded(found: Record, trace: seq<Event>, last: Record) {
    var n := |trace| - 1;
    && n >= 0 && trace[n] == Saved(last) && last.result.Some?
    && var events := trace[..n]; var receipt := last.result.value;
       if receipt.status.Staged? then last.state.Terminal?
       else if AfterAll(Loaded(found), events).intent then
         && last.state.Reconciliation?
         && exists code :: Excused(found, events, last.guid, code) && MakeResult(RequiresReconciliation, ReportedCode(code), last.guid, NoEvidence) == Some(receipt)
       else
         && last.state.Terminal?
         && exists code :: Excused(found, events, "", code) && MakeResult(FailedStatus, ReportedCode(code), "", NoEvidence) == Some(receipt)
  }

  /** Executes a granted pilot job; from the creating intent on, anything caught needs reconciliation. */
  method ExecutePilot(j: Journal, env: Environment) returns (ending: Ending)
    requires ValidRecord(j.Value()) && env.trace == []
    modifies j, env
    ensures AllowedAll(Loaded(old(j.Value())), env.trace)
    ensures CallsIn(env.trace) <= PILOT_CALLS
    ensures ending.Returned? && old(j.state).Granted? && ending.receipt.status.Staged? ==> CallsIn(env.trace) == PILOT_CALLS
    ensures !old(j.state).Granted? ==> env.trace == [] && j.Value() == old(j.Value())
    ensures ending.Returned? && old(j.state).Granted? ==>
              && AfterAll(Loaded(old(j.Value())), env.trace).view == j.Value() && j.result == Some(ending.receipt)
              && Concluded(old(j.Value()), env.trace, j.Value()) && ExpiredIsReported(env.trace, ending.receipt)
              && (ending.receipt.status.Staged? || ending.receipt.status.FailedStatus? || ending.receipt.status.RequiresReconciliation?)
              && (ending.receipt.status.FailedStatus? ==> forall e :: e in env.trace ==> !e.Mutated?)
  {
    hide ValidRecord, MakeResult, UsableGpo, CallsIn, SeenIn, BackupIn, AllowedAll, AfterAll, Excused;
    ghost var p := Loaded(j.Value());
    NothingCalled(p);
    if j.assignment.schema >= 3 { return Escaped; }
    if !j.state.Granted? {
      if Completed(j.state) && j.result.Some? { return Returned(j.result.value); }
      return Returned(Receipt(RequiresReconciliation, Known("gpo_reconciliation_required"), j.guid, NoEvidence));
    }
    var checked := Preflight(p, j, env);
    GrantedHasNoGuid(j.Value());
    if checked.Raised? {
      ending := FailPilot(p, j, env, checked.code);
    } else {
      EnterPilotIntent(p, j, env);
      var created := CreatePilotGpo(p, j, env);
      if created.Got? { ending := Returned(created.value); }
      else { ending := ReconcilePilot(p, j, env, created.code); }
    }
    if ending.Returned? { ExpiryIsReported(p.view, env.trace, j.Value()); }
  }

  /** Caught before the intent: nothing was written. */
  method FailPilot(ghost p: Process, j: Journal, env: Environment, code: Code) returns (ending: Ending)
    requires p == Loaded(j.Value()) && ValidRecord(p.view) && j.state.Granted? && j.assignment.schema < 3 && j.guid == ""
    requires AllowedAll(p, env.trace) && AfterAll(p, env.trace).view == p.view && !AfterAll(p, env.trace).intent
    requires Excused(p.view, env.trace, "", code) && CallsIn(env.trace) == []
    modifies j, env
    ensures AllowedAll(p, env.trace) && CallsIn(env.trace) == []
    ensures ending.Returned? ==>
              && AfterAll(p, env.trace).view == j.Value() && j.result == Some(ending.receipt) && ending.receipt.status.FailedStatus?
              && Concluded(p.view, env.trace, j.Value()) && (forall e :: e in env.trace ==> !e.Mutated?)
  {
    hide ValidRecord, MakeResult, UsableGpo, CallsIn, SeenIn, BackupIn, AllowedAll, AfterAll, Excused;
    var failed := MakeResult(FailedStatus, ReportedCode(code), "", NoEvidence);
    if failed.None? { return Escaped; }
    CaughtPilotIsValid(j.Value(), FailedStatus, ReportedCode(code), "");
    MadeIsTheReceipt(FailedStatus, ReportedCode(code), "", NoEvidence);
    j.state, j.result := Terminal, failed;
    ghost var before := env.trace;
    Persist(p, j, env);
    assert env.trace[..|before|] == before;
    NoIntentNoMutation(p, env.trace);
    ending := Returned(failed.value);
  }

  /** Caught after the intent: the outcome is unknown, whatever was written. */
  method ReconcilePilot(ghost p: Process, j: Journal, env: Environment, code: Code) returns (ending: Ending)
    requires Underway(p, j, env) && p == Loaded(p.view) && (j.guid == "" || UsableGpo(j.guid)) && Excused(p.view, env.trace, j.guid, code)
    modifies j, env
    ensures AllowedAll(p, env.trace) && CallsIn(env.trace) == CallsIn(old(env.trace))
    ensures ending.Returned? ==> AfterAll(p, env.trace).view == j.Value() && j.result == Some(ending.receipt)
                                 && ending.receipt.status.RequiresReconciliation? && Concluded(p.view, env.trace, j.Value())
  {
    hide ValidRecord, UsableGpo, MakeResult, CallsIn, SeenIn, BackupIn, AllowedAll, AfterAll, Excused;
    var uncertain := MakeResult(RequiresReconciliation, ReportedCode(code), j.guid, NoEvidence);
    if uncertain.None? { return Escaped; }
    ghost var view := AfterAll(p, env.trace).view;
    CaughtPilotIsValid(view, RequiresReconciliation, ReportedCode(code), j.guid);
    MadeIsTheReceipt(RequiresReconciliation, ReportedCode(code), j.guid, NoEvidence);
    j.state, j.result := Reconciliation, uncertain;
    assert j.Value() == view.(state := Reconciliation, guid := j.guid, result := uncertain);
    ghost var before := env.trace;
    Persist(p, j, env);
    assert env.trace[..|before|] == before;
    ending := Returned(uncertain.value);
  }

  method EnterPilotIntent(ghost p: Process, j: Journal, env: Environment)
    requires ValidRecord(p.view) && p.view.assignment.schema < 3 && j.Value() == p.view && p.loaded && p.view.state.Granted?
    requires AllowedAll(p, env.trace) && (var q := AfterAll(p, env.trace); q == p.(consumed := true, heard := q.heard) && q.heard.open)
    requires j.assignment.schema == 2 ==> j.approval.Some?
    modifies j, env
    ensures Underway(p, j, env) && j.Value() == AfterAll(p, env.trace).view && j.state.Creating? && AfterAll(p, env.trace).heard.open
    ensures CallsIn(env.trace) == CallsIn(old(env.trace))
  {
    hide ValidManagedJob, ValidApproval, Clean, AllowedAll, AfterAll, CallsIn, SeenIn, BackupIn;
    j.state := Creating;
    Persist(p, j, env);
  }

  lemma KnownResult(s: Status, guid: string, receipt: Receipt)
    requires MakeResult(s, ReportedCode(AUTHORITY_EXPIRED), guid, NoEvidence) == Some(receipt)
    ensures receipt == Receipt(s, AUTHORITY_EXPIRED, guid, NoEvidence)
  {
  }

  lemma ExpiryIsReported(found: Record, trace: seq<Event>, last: Record)
    requires AllowedAll(Loaded(found), trace) && Concluded(found, trace, last)
    ensures ExpiredIsReported(trace, last.result.value)
  {
    hide AllowedAll, AfterAll, MakeResult, ValidRecord, UsableGpo, SeenIn, BackupIn;
    var n := |trace| - 1;
    var events, receipt := trace[..n], last.result.value;
    if Authorised(false) in trace {
      ClosedIsNoSuccess(found, trace, last);
      LastWasAllowed(Loaded(found), trace);
      var intent := AfterAll(Loaded(found), events).intent;
      var id := if intent then last.guid else "";
      var status := if intent then RequiresReconciliation else FailedStatus;
      var code :| Excused(found, events, id, code) && MakeResult(status, ReportedCode(code), id, NoEvidence) == Some(receipt);
      assert events != [] && !events[n - 1].Saved?;
      NegativeIsBeforeTheEnd(found, trace, Authorised(false));
      assert events[n - 1] == Authorised(false);
      KnownResult(status, id, receipt);
      if intent { ConsumedBeforeIntent(found, events); assert Consumed in trace; }
      if trace[0] == Authorised(false) {
        NothingAfterNegative(found, trace, 0);
        assert events == [Authorised(false)];
        RefusedAtOnce(found);
      }
    }
  }

  // ----- The parent's fence -----

  /** The parent lost its worker: it returns a recorded outcome, or records that one is needed. */
  method FenceLostWorker(j: Journal, env: Environment, timedOut: bool) returns (ending: Ending)
    requires ValidRecord(j.Value()) && env.trace == []
    modifies j, env
    ensures AllowedAll(Loaded(old(j.Value())), env.trace)
    ensures Completed(old(j.state)) ==> ending == Returned(old(j.result).value) && env.trace == []
    ensures !Completed(old(j.state)) && !Inspection(j.assignment) ==>
              && ending.Returned? && ending.receipt.status.RequiresReconciliation? && ending.receipt.guid == old(j.guid)
              && ending.receipt.code == Known(if timedOut then "gpo_worker_timeout" else "gpo_worker_failed")
              && j.result == Some(ending.receipt) && j.state.Reconciliation? && env.trace == [Saved(j.Value())]
  {
    hide ValidRecord, MakeResult, CaughtResult, UsableGpo, CallsIn, SeenIn, BackupIn;
    ghost var p := Loaded(j.Value());
    NothingHeard(p);
    CompletedHasResult(j.Value());
    if Completed(j.state) { return Returned(j.result.value); }
    // The journal refuses a reconciliation for an inspection, so its save throws.
    if Inspection(j.assignment) { return Escaped; }
    var code := Known(if timedOut then "gpo_worker_timeout" else "gpo_worker_failed");
    KnownIsCaught(RequiresReconciliation, code, j.guid);
    CaughtRecordIsValid(j.Value(), RequiresReconciliation, code, j.guid);
    MadeIsTheReceipt(RequiresReconciliation, code, j.guid, NoEvidence);
    j.result := MakeResult(RequiresReconciliation, code, j.guid, NoEvidence);
    j.state := Reconciliation;
    Persist(p, j, env);
    ending := Returned(j.result.value);
  }
}
