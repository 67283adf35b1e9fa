/**
 The durable record of one GPO job: jobs, directory snapshots, results and the
 journal document, with the checks the source makes on each of them.
 */
module GpoRecord {
  import opened Wrappers

  // ----- Text -----

  predicate LowerHex(c: char) { '0' <= c <= '9' || 'a' <= c <= 'f' }

  predicate ValidUuid(s: string) {
    && |s| == 36
    && (forall i | 0 <= i < 36 :: if i in {8, 13, 18, 23} then s[i] == '-' else LowerHex(s[i]))
    && (exists i :: 0 <= i < 36 && i !in {8, 13, 18, 23} && s[i] != '0')
  }

  predicate IsHash(s: string) { |s| == 64 && forall i | 0 <= i < 64 :: LowerHex(s[i]) }

  predicate Clean(s: string, limit: nat) {
    0 < |s| <= limit && forall i | 0 <= i < |s| :: s[i] as int >= 32 && s[i] as int != 127
  }

  function LowerChar(c: char): char {
    if 'A' <= c <= 'Z' then (c as int + 32) as char else c
  }

  function Lower(s: string): string { seq(|s|, i requires 0 <= i < |s| => LowerChar(s[i])) }

  const DEFAULT_DOMAIN_POLICY := "31b2f340-016d-11d2-945f-00c04fb984f9"
  const DEFAULT_CONTROLLERS_POLICY := "6ac1786c-016f-11d2-945f-00c04fb984f9"

  predicate ProtectedGpo(s: string) {
    var bare := if |s| == 38 && s[0] == '{' && s[37] == '}' then s[1..37] else s;
    Lower(bare) == DEFAULT_DOMAIN_POLICY || Lower(bare) == DEFAULT_CONTROLLERS_POLICY
  }

  predicate UsableGpo(s: string) { ValidUuid(s) && !ProtectedGpo(s) }

  // ----- Directory snapshots -----

  datatype Kind = OuKind | DomainKind | SiteKind

  datatype Link = Link(guid: string, domain: string, dn: string, kind: Kind, enabled: bool, enforced: bool, order: int)

  datatype Ou = Ou(dn: string, guid: string, usn: string, blocked: bool, links: seq<Link>, inherited: seq<Link>)

  datatype Policy = Policy(guid: string, name: string, description: string, computerEnabled: bool, userEnabled: bool,
                           computerDs: int, computerSysvol: int, userDs: int, userSysvol: int, ownerSid: string,
                           securityDigest: string, wmiFilter: string, links: seq<Link>)

  /** `textOk`: the names, SIDs, versions and the serialized size of the document pass their lexical checks. */
  datatype Snapshot = Snapshot(adminsSid: string, policy: Option<Policy>, ous: seq<Ou>, nameAvailable: bool, textOk: bool)

  predicate ValidLinks(ls: seq<Link>) {
    && |ls| <= 128
    && (forall i | 0 <= i < |ls| :: ValidUuid(ls[i].guid) && 1 <= ls[i].order <= 128)
    && (forall i, j | 0 <= i < j < |ls| :: Lower(ls[i].dn) != Lower(ls[j].dn) || ls[i].guid != ls[j].guid)
  }

  predicate ValidSnapshot(s: Snapshot) {
    && s.textOk && |s.ous| <= 32
    && (forall i | 0 <= i < |s.ous| :: ValidUuid(s.ous[i].guid) && ValidLinks(s.ous[i].links) && ValidLinks(s.ous[i].inherited))
    && (forall i, j | 0 <= i < j < |s.ous| :: s.ous[i].guid != s.ous[j].guid && Lower(s.ous[i].dn) != Lower(s.ous[j].dn))
    && (s.policy.Some? ==> UsableGpo(s.policy.value.guid) && ValidLinks(s.policy.value.links))
  }

  function StateGuid(s: Snapshot): string {
    if s.policy.None? then "" else s.policy.value.guid
  }

  // ----- Jobs -----

  datatype Operation = CreatePilot | InspectManaged | ImportManaged | ImportAndLink | LinkManaged
                     | ActivateManaged | DeactivateManaged | DeleteManaged

  datatype Scope = Machine | User | WholeDomain

  datatype Job = Job(schema: int, jobId: string, inputDigest: string, domainDns: string, domainGuid: string, tier: int,
                     operation: Operation, intended: Operation, expiresAt: int, displayName: string, artifact: string,
                     managedId: string, gpoGuid: string, ownerMarker: string, overrideId: string, overrideSha: string,
                     targets: seq<string>, orders: seq<int>, expected: Option<Snapshot>, scope: Option<Scope>)

  predicate ImportOperation(o: Operation) { o.ImportManaged? || o.ImportAndLink? }

  predicate LinkOperation(o: Operation) { o.LinkManaged? || o.ImportAndLink? }

  predicate ManagedOperation(o: Operation) { !o.CreatePilot? && !o.InspectManaged? }

  predicate Inspection(j: Job) { j.schema >= 3 && j.operation.InspectManaged? }

  function ManagedMarker(j: Job): string {
    if j.schema == 4 then "IPMS managed override; id=" + j.managedId + "; definition=" + j.overrideId
    else "IPMS managed GPO; id=" + j.managedId
  }

  /** The distinguished name of a domain: each dot starts another `dc=` component. */
  function DomainDn(domain: string): string { "dc=" + Components(domain) }

  function Components(s: string): string {
    if s == "" then "" else (if s[0] == '.' then ",dc=" else [s[0]]) + Components(s[1..])
  }

  /** The one target is the domain root: by the component's scope, or by name. */
  predicate DomainTarget(j: Job) {
    j.scope == Some(WholeDomain) || (|j.targets| == 1 && Lower(j.targets[0]) == DomainDn(j.domainDns))
  }

  predicate Adoption(j: Job) { j.gpoGuid != "" && j.ownerMarker != ManagedMarker(j) }

  /** The parts of the assignment contract that execution depends on. */
  predicate ValidJob(j: Job) {
    && 1 <= j.schema <= 4 && ValidUuid(j.jobId) && IsHash(j.inputDigest) && IsHash(j.artifact)
    && (j.schema < 3 ==> j.operation.CreatePilot?)
    && (j.schema >= 3 ==> ValidManagedJob(j))
    && (j.schema == 4 ==> IsHash(j.overrideSha))
  }

  predicate ValidManagedJob(j: Job) {
    && ValidUuid(j.managedId) && ManagedOperation(j.intended)
    && (!Inspection(j) ==> j.operation == j.intended)
    && (j.gpoGuid == "" || UsableGpo(j.gpoGuid))
    && (j.gpoGuid == "" ==> ImportOperation(j.intended) && j.ownerMarker == "")
    && (Adoption(j) ==> ImportOperation(j.intended))
    && |j.targets| <= 32 && |j.orders| == |j.targets|
    && (j.targets == [] ==> j.intended.ImportManaged?)
    && (forall i | 0 <= i < |j.orders| :: 1 <= j.orders[i] <= 128)
    && (forall a, b | 0 <= a < b < |j.targets| :: Lower(j.targets[a]) != Lower(j.targets[b]))
    && if Inspection(j) then j.expected.None?
       else
         && j.expected.Some? && ValidSnapshot(j.expected.value)
         && StateGuid(j.expected.value) == j.gpoGuid && |j.expected.value.ous| == |j.targets|
         && (forall n | 0 <= n < |j.targets| :: Lower(j.expected.value.ous[n].dn) == Lower(j.targets[n]))
  }

  // ----- Approvals -----

  datatype Approval = Approval(jobId: string, inputDigest: string, deviceUri: string, domainGuid: string, tier: int,
                               operation: Operation, expiresAt: int, requestedBy: string, approvedBy: string,
                               approvedAt: int, policyRevision: int, fourEyes: bool)

  predicate ValidApproval(a: Approval, j: Job, uri: string) {
    && 2 <= j.schema <= 4 && !Inspection(j) && Clean(uri, 512)
    && a.deviceUri == uri && a.policyRevision >= 1 && a.tier == j.tier && a.jobId == j.jobId
    && a.inputDigest == j.inputDigest && a.domainGuid == j.domainGuid && a.operation == j.operation
    && a.expiresAt == j.expiresAt
    && (a.fourEyes ==> a.requestedBy != a.approvedBy)
    && a.expiresAt - 3600 <= a.approvedAt < a.expiresAt
  }

  // ----- Results -----

  datatype Status = Staged | Linked | Activated | Deactivated | Deleted | Inspected
                  | FailedStatus | RequiresReconciliation | AwaitingLocal | AwaitingPortal

  /** Result codes: those a success or an awaited approval is bound to, the other known ones, and unknown text. */
  datatype Code = StagedUnlinked | PreparedCode | LinkedCode | ActivatedCode | DeactivatedCode | DeletedCode | InspectedCode
                | LocalApprovalRequired | PortalApprovalRequired | Known(text: string) | Unknown(text: string)

  datatype Evidence =
    | NoEvidence
    | PilotEvidence(computerEnabled: bool, userEnabled: bool, unlinked: bool, textOk: bool)
    | ManagedEvidence(schema: int, operation: Operation, managedId: string, state: Snapshot, artifact: string,
                      backupId: string, backupHash: string, overrideSha: string)

  /** `guid` is empty for a null identifier. */
  datatype Receipt = Receipt(status: Status, code: Code, guid: string, evidence: Evidence)

  predicate SuccessCode(c: Code) {
    c.StagedUnlinked? || c.PreparedCode? || c.LinkedCode? || c.ActivatedCode? || c.DeactivatedCode? || c.DeletedCode? || c.InspectedCode?
  }

  /** The one status and code a finished managed operation may carry. */
  predicate Fits(o: Operation, s: Status, c: Code) {
    match o
    case InspectManaged => s.Inspected? && c.InspectedCode?
    case ImportManaged => s.Staged? && c.PreparedCode?
    case LinkManaged => s.Linked? && c.LinkedCode?
    case ImportAndLink => s.Linked? && c.LinkedCode?
    case ActivateManaged => s.Activated? && c.ActivatedCode?
    case DeactivateManaged => s.Deactivated? && c.DeactivatedCode?
    case DeleteManaged => s.Deleted? && c.DeletedCode?
    case CreatePilot => false
  }

  predicate ValidManagedResult(r: Receipt) {
    && r.evidence.ManagedEvidence?
    && var e := r.evidence;
    && ((e.schema == 3 && e.overrideSha == "") || (e.schema == 4 && IsHash(e.overrideSha)))
    && ValidUuid(e.managedId) && ValidSnapshot(e.state) && Fits(e.operation, r.status, r.code)
    && (if StateGuid(e.state) == "" then r.guid == "" && (r.status.Inspected? || r.status.Deleted?) else r.guid == StateGuid(e.state))
    && (if ImportOperation(e.operation) || e.operation.ActivateManaged? then IsHash(e.artifact) else e.artifact == "")
    && (if e.backupId == "" then e.backupHash == "" && !e.operation.ActivateManaged? && !e.operation.DeleteManaged?
        else ValidUuid(e.backupId) && IsHash(e.backupHash) && (e.operation.ActivateManaged? || e.operation.DeleteManaged?))
  }

  predicate ValidResult(r: Receipt) {
    && !r.code.Unknown?
    && if r.evidence.ManagedEvidence? then ValidManagedResult(r)
       else
         && (r.status.Staged? || r.status.FailedStatus? || r.status.AwaitingLocal? || r.status.AwaitingPortal? || r.status.RequiresReconciliation?)
         && (r.guid == "" || UsableGpo(r.guid))
         && if r.status.Staged? then
              r.guid != "" && r.code.StagedUnlinked? && r.evidence.PilotEvidence? && r.evidence.textOk
              && !r.evidence.computerEnabled && !r.evidence.userEnabled && r.evidence.unlinked
            else
              !SuccessCode(r.code) && r.evidence.NoEvidence?
              && (r.status.AwaitingLocal? ==> r.code.LocalApprovalRequired?)
              && (r.status.AwaitingPortal? ==> r.code.PortalApprovalRequired?)
              && (r.status.RequiresReconciliation? || r.guid == "")
  }

  /** `result(...)`: the receipt when it is valid; the source throws otherwise. */
  function MakeResult(s: Status, c: Code, guid: string, e: Evidence): Option<Receipt> {
    var r := Receipt(s, c, guid, e);
    if ValidResult(r) then Some(r) else None
  }

  // ----- The journal -----

  datatype Phase = Prepared | Granted | Creating | Created | Importing | Terminal | Reconciliation

  datatype Record = Record(assignment: Job, deviceUri: string, state: Phase, guid: string, deadline: nat,
                           result: Option<Receipt>, approval: Option<Approval>)

  predicate Completed(p: Phase) { p.Terminal? || p.Reconciliation? }

  predicate Success(s: Status) { s.Staged? || s.Linked? || s.Activated? || s.Deactivated? || s.Deleted? }

  predicate ValidCompletion(r: Record)
    requires r.result.Some?
  {
    var j := r.assignment;
    var done := r.result.value;
    && ValidResult(done)
    && (j.schema >= 2 && Success(done.status) ==> r.approval.Some?)
    && (if r.state.Reconciliation? then done.status.RequiresReconciliation?
        else Success(done.status) || done.status.FailedStatus? || done.status.Inspected?)
    && (j.schema < 3 ==> (done.status.Staged? || done.status.FailedStatus? || done.status.RequiresReconciliation?) && !done.evidence.ManagedEvidence?)
    && (j.schema >= 3 && !done.status.FailedStatus? && !done.status.RequiresReconciliation? ==>
          && ValidManagedResult(done)
          && var e := done.evidence;
          && e.schema == j.schema && (j.schema == 4 ==> e.overrideSha == j.overrideSha)
          && e.operation == j.operation && e.managedId == j.managedId
          && (done.status.Staged? || done.status.Activated? || j.operation.ImportAndLink? ==> e.artifact == j.artifact))
    && (done.status.Inspected? ==> Inspection(j))
    && (Inspection(j) ==> done.status.Inspected? || done.status.FailedStatus?)
    && done.guid == r.guid
  }

  /** What a document must satisfy to be read back as a record. */
  predicate ValidRecord(r: Record) {
    && ValidJob(r.assignment) && Clean(r.deviceUri, 512) && r.deadline < 0x8000_0000_0000_0000
    && (r.guid == "" || UsableGpo(r.guid))
    && (r.state.Prepared? || r.state.Granted? || r.state.Creating? ==> r.guid == "")
    && (r.state.Created? || r.state.Importing? ==> r.guid != "")
    && (r.state.Prepared? ==> r.deadline == 0)
    && (if r.assignment.schema == 1 then r.approval.None?
        else
          && (r.approval.Some? ==> ValidApproval(r.approval.value, r.assignment, r.deviceUri) && !r.state.Prepared?)
          && (r.approval.Some? <==> r.deadline > 0)
          && (r.approval.None? ==> !r.state.Creating? && !r.state.Created? && !r.state.Importing?))
    && (if Completed(r.state) then r.result.Some? && ValidCompletion(r) else r.result.None?)
  }

  // ----- The journal document -----

  /** A field of the document; nested documents are kept as they are. */
  datatype Field =
    | Number(n: int)
    | Text(s: string)
    | JobField(job: Job)
    | ResultField(receipt: Option<Receipt>)
    | ApprovalField(approval: Option<Approval>)

  const COMMON_FIELDS := {"schema", "job", "device_uri", "phase", "gpo_guid", "grant_deadline_tick", "result"}

  function PhaseName(p: Phase): string {
    match p
    case Prepared => "prepared"
    case Granted => "granted"
    case Creating => "creating"
    case Created => "created"
    case Importing => "importing"
    case Terminal => "terminal"
    case Reconciliation => "reconciliation"
  }

  function ParsePhase(s: string): Option<Phase> {
    if s == "prepared" then Some(Prepared)
    else if s == "granted" then Some(Granted)
    else if s == "creating" then Some(Creating)
    else if s == "created" then Some(Created)
    else if s == "importing" then Some(Importing)
    else if s == "terminal" then Some(Terminal)
    else if s == "reconciliation" then Some(Reconciliation)
    else None
  }

  function CommonFields(r: Record): map<string, Field> {
    map["schema" := Number(r.assignment.schema),
        "job" := JobField(r.assignment),
        "device_uri" := Text(r.deviceUri),
        "phase" := Text(PhaseName(r.state)),
        "gpo_guid" := Text(r.guid),
        "grant_deadline_tick" := Number(r.deadline),
        "result" := ResultField(r.result)]
  }

  /** None where building the document throws: a tick outside int64, or an approval in a legacy job. */
  function Document(r: Record): Option<map<string, Field>> {
    if r.deadline >= 0x8000_0000_0000_0000 then None
    else if r.assignment.schema >= 2 then Some(CommonFields(r)["portal_approval" := ApprovalField(r.approval)])
    else if r.approval.Some? then None
    else Some(CommonFields(r))
  }

  predicate HasShape(d: map<string, Field>) {
    && COMMON_FIELDS <= d.Keys
    && d["schema"].Number? && d["job"].JobField? && d["device_uri"].Text? && d["phase"].Text? && d["gpo_guid"].Text?
    && d["grant_deadline_tick"].Number? && d["result"].ResultField?
    && 1 <= d["schema"].n <= 4 && d["job"].job.schema == d["schema"].n && d["grant_deadline_tick"].n >= 0
    && if d["schema"].n >= 2 then d.Keys == COMMON_FIELDS + {"portal_approval"} && d["portal_approval"].ApprovalField?
       else d.Keys == COMMON_FIELDS
  }

  function ParseJournal(d: map<string, Field>): Option<Record> {
    if !HasShape(d) then None
    else
      match ParsePhase(d["phase"].s)
      case None => None
      case Some(state) =>
        var approval := if "portal_approval" in d then d["portal_approval"].approval else None;
        var r := Record(d["job"].job, d["device_uri"].s, state, d["gpo_guid"].s, d["grant_deadline_tick"].n, d["result"].receipt, approval);
        if ValidRecord(r) then Some(r) else None
  }

  lemma PhaseReadsBack(p: Phase)
    ensures ParsePhase(PhaseName(p)) == Some(p)
  {
    match p { case Prepared => case Granted => case Creating => case Created => case Importing => case Terminal => case Reconciliation => }
  }

  lemma FieldsOf(r: Record)
    ensures var d := CommonFields(r);
            && d.Keys == COMMON_FIELDS && d["schema"] == Number(r.assignment.schema) && d["job"] == JobField(r.assignment)
            && d["device_uri"] == Text(r.deviceUri) && d["phase"] == Text(PhaseName(r.state)) && d["gpo_guid"] == Text(r.guid)
            && d["grant_deadline_tick"] == Number(r.deadline) && d["result"] == ResultField(r.result)
            && "portal_approval" !in d
  {
    hide PhaseName;
  }

  /** A record reads back from its own document exactly when it meets the journal's invariants, and then as itself. */
  lemma ParseAfterDocument(r: Record)
    ensures ValidRecord(r) <==> (Document(r).Some? && ParseJournal(Document(r).value) == Some(r))
    ensures Document(r).Some? && ParseJournal(Document(r).value).Some? ==> ParseJournal(Document(r).value) == Some(r)
  {
    assert ValidJob(r.assignment) ==> 1 <= r.assignment.schema <= 4;
    hide PhaseName, ParsePhase, CommonFields, ValidJob, ValidApproval, ValidCompletion, Clean, UsableGpo;
    FieldsOf(r);
    PhaseReadsBack(r.state);
  }

  /** Every document that is accepted is the document of the record it reads as. */
  lemma DocumentAfterParse(d: map<string, Field>)
    requires ParseJournal(d).Some?
    ensures ValidRecord(ParseJournal(d).value) && Document(ParseJournal(d).value) == Some(d)
  {
    hide PhaseName, ParsePhase, CommonFields, ValidJob, ValidApproval, ValidCompletion, Clean, UsableGpo;
    var r := ParseJournal(d).value;
    FieldsOf(r);
    assert PhaseName(r.state) == d["phase"].s by { PhaseNameAfterParse(d["phase"].s); }
    var c := CommonFields(r);
    assert forall key | key in COMMON_FIELDS :: c[key] == d[key];
    var whole := if r.assignment.schema >= 2 then c["portal_approval" := ApprovalField(r.approval)] else c;
    assert whole.Keys == d.Keys;
    assert whole == d;
  }

  lemma PhaseNameAfterParse(s: string)
    ensures ParsePhase(s).Some? ==> PhaseName(ParsePhase(s).value) == s
  {
  }
}
