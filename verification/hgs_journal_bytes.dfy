/**
 The bytes of a saved HGS journal: the record's document as canonical JSON. An
 absent observation or outcome is the empty object.
 */
module HgsJournalBytes {
  import opened Wrappers
  import opened HgsManagement
  import opened HgsContract
  import opened HgsObservationJson
  import opened HgsJobJson
  import J = ManagementJsonText
  import G = ManagementJsonGrammar
  import L = ManagementJsonLaws

  const EMPTY := J.Obj(map[])

  function PhaseName(p: Phase): string {
    match p
    case Prepared => "prepared"
    case Claiming => "claiming"
    case Intent => "intent"
    case RebootWait => "reboot_wait"
    case Terminal => "terminal"
  }

  function ParsePhase(s: string): Option<Phase> {
    if s == "prepared" then Some(Prepared)
    else if s == "claiming" then Some(Claiming)
    else if s == "intent" then Some(Intent)
    else if s == "reboot_wait" then Some(RebootWait)
    else if s == "terminal" then Some(Terminal)
    else None
  }

  function StatusName(s: Status): string {
    match s
    case Succeeded => "succeeded"
    case Failed => "failed"
    case ReconciliationRequired => "reconciliation_required"
    case RebootRequired => "reboot_required"
  }

  function ParseStatus(s: string): Option<Status> {
    if s == "succeeded" then Some(Succeeded)
    else if s == "failed" then Some(Failed)
    else if s == "reconciliation_required" then Some(ReconciliationRequired)
    else if s == "reboot_required" then Some(RebootRequired)
    else None
  }

  function CodeName(c: Code): string {
    match c
    case Inspected => "hgs_inspected"
    case Verified => "hgs_verified"
    case StepSucceeded => "hgs_step_succeeded"
    case RebootNeeded => "hgs_reboot_required"
    case RebootObserved => "hgs_reboot_observed"
    case JobExpired => "hgs_job_expired"
    case AuthorityLost => "hgs_authority_lost"
    case PrerequisiteFailed => "hgs_prerequisite_failed"
    case ProviderFailed => "hgs_provider_failed"
    case PostconditionFailed => "hgs_postcondition_failed"
    case ReconciliationNeeded => "hgs_reconciliation_required"
    case UnsupportedPlatform => "hgs_unsupported_platform"
  }

  function ParseCode(s: string): Option<Code> {
    if s == "hgs_inspected" then Some(Inspected)
    else if s == "hgs_verified" then Some(Verified)
    else if s == "hgs_step_succeeded" then Some(StepSucceeded)
    else if s == "hgs_reboot_required" then Some(RebootNeeded)
    else if s == "hgs_reboot_observed" then Some(RebootObserved)
    else if s == "hgs_job_expired" then Some(JobExpired)
    else if s == "hgs_authority_lost" then Some(AuthorityLost)
    else if s == "hgs_prerequisite_failed" then Some(PrerequisiteFailed)
    else if s == "hgs_provider_failed" then Some(ProviderFailed)
    else if s == "hgs_postcondition_failed" then Some(PostconditionFailed)
    else if s == "hgs_reconciliation_required" then Some(ReconciliationNeeded)
    else if s == "hgs_unsupported_platform" then Some(UnsupportedPlatform)
    else None
  }

  lemma PhaseReadsBack(p: Phase)
    ensures ParsePhase(PhaseName(p)) == Some(p)
  {
    match p { case Prepared => case Claiming => case Intent => case RebootWait => case Terminal => }
  }

  lemma StatusReadsBack(s: Status)
    ensures ParseStatus(StatusName(s)) == Some(s)
  {
    match s { case Succeeded => case Failed => case ReconciliationRequired => case RebootRequired => }
  }

  lemma CodeReadsBack(c: Code)
    ensures ParseCode(CodeName(c)) == Some(c)
  {
    match c {
      case Inspected => case Verified => case StepSucceeded => case RebootNeeded => case RebootObserved => case JobExpired =>
      case AuthorityLost => case PrerequisiteFailed => case ProviderFailed => case PostconditionFailed => case ReconciliationNeeded =>
      case UnsupportedPlatform =>
    }
  }

  lemma PhaseIsWritten(s: string)
    requires ParsePhase(s).Some?
    ensures PhaseName(ParsePhase(s).value) == s
  {
  }

  lemma StatusIsWritten(s: string)
    requires ParseStatus(s).Some?
    ensures StatusName(ParseStatus(s).value) == s
  {
  }

  lemma CodeIsWritten(s: string)
    requires ParseCode(s).Some?
    ensures CodeName(ParseCode(s).value) == s
  {
  }

  // ----- Observations and outcomes that may be absent -----

  predicate LookHolds(o: Option<Observation>) { o.Some? ==> ValidLook(o.value) }

  function LookValue(o: Option<Observation>): J.Value { if o.None? then EMPTY else J.Obj(LookFields(o.value)) }

  /** None where reading throws. */
  function ReadOptionalLook(v: J.Value): Option<Option<Observation>> {
    if v == EMPTY then Some(None)
    else match ReadLook(v) case Some(o) => Some(Some(o)) case None => None
  }

  lemma OptionalLookReadsBack(o: Option<Observation>)
    ensures ReadOptionalLook(LookValue(o)) == if LookHolds(o) then Some(o) else None
  {
    hide LookFields, LookName, ReadLook, ValidLook;
    if o.Some? {
      LookReadsBack(o.value);
      LookFieldKeys(o.value);
      assert LookName(OsBuild) in LookFields(o.value);
    }
  }

  lemma OptionalLookIsWritten(v: J.Value)
    requires ReadOptionalLook(v).Some?
    ensures v == LookValue(ReadOptionalLook(v).value)
  {
    hide LookFields, ReadLook, ValidLook;
    if v != EMPTY { LookIsWritten(v); }
  }

  const OUTCOME_NAMES := {"status", "result_code", "observation"}

  function OutcomeValue(o: Option<Outcome>): J.Value {
    if o.None? then EMPTY
    else J.Obj(map["status" := J.Str(StatusName(o.value.status)), "result_code" := J.Str(CodeName(o.value.code)),
                   "observation" := LookValue(o.value.observation)])
  }

  function ReadOutcome(v: J.Value): Option<Option<Outcome>> {
    if v == EMPTY then Some(None)
    else if !v.Obj? || v.fields.Keys != OUTCOME_NAMES || !v.fields["status"].Str? || !v.fields["result_code"].Str? then None
    else
      match (ParseStatus(v.fields["status"].text), ParseCode(v.fields["result_code"].text), ReadOptionalLook(v.fields["observation"]))
      case (Some(status), Some(code), Some(look)) => Some(Some(Outcome(status, code, look)))
      case _ => None
  }

  predicate OutcomeHolds(o: Option<Outcome>) { o.Some? ==> LookHolds(o.value.observation) }

  lemma OutcomeReadsBack(o: Option<Outcome>)
    ensures ReadOutcome(OutcomeValue(o)) == if OutcomeHolds(o) then Some(o) else None
  {
    hide StatusName, CodeName, ParseStatus, ParseCode, LookHolds, LookValue, ReadOptionalLook;
    if o.Some? {
      StatusReadsBack(o.value.status);
      CodeReadsBack(o.value.code);
      OptionalLookReadsBack(o.value.observation);
      assert OutcomeValue(o).fields.Keys == OUTCOME_NAMES;
      assert "status" in OutcomeValue(o).fields;
    }
  }

  lemma OutcomeIsWritten(v: J.Value)
    requires ReadOutcome(v).Some?
    ensures v == OutcomeValue(ReadOutcome(v).value)
  {
    hide StatusName, CodeName, ParseStatus, ParseCode, LookValue, ReadOptionalLook;
    if v != EMPTY {
      StatusIsWritten(v.fields["status"].text);
      CodeIsWritten(v.fields["result_code"].text);
      OptionalLookIsWritten(v.fields["observation"]);
      assert v.fields == OutcomeValue(ReadOutcome(v).value).fields;
    }
  }

  // ----- The document -----

  const FIELD_NAMES := {"schema_version", "assignment", "state", "before", "outcome"}

  function Fields(r: Record): map<string, J.Value> {
    map["schema_version" := J.Int(1), "assignment" := J.Obj(JobFields(r.assignment)), "state" := J.Str(PhaseName(r.state)),
        "before" := LookValue(r.before), "outcome" := OutcomeValue(r.outcome)]
  }

  function FromFields(m: map<string, J.Value>): Option<Record> {
    if m.Keys != FIELD_NAMES || m["schema_version"] != J.Int(1) || !m["state"].Str? then None
    else
      match (ReadJob(m["assignment"]), ParsePhase(m["state"].text), ReadOptionalLook(m["before"]), ReadOutcome(m["outcome"]))
      case (Some(job), Some(state), Some(before), Some(outcome)) =>
        var r := Record(job, state, before, outcome);
        if ValidRecord(r) then Some(r) else None
      case _ => None
  }

  /** What the contract asks of a record and all that is in it. */
  predicate Storable(r: Record) {
    ValidRecord(r) && ValidJob(r.assignment) && LookHolds(r.before) && OutcomeHolds(r.outcome)
  }

  lemma FieldValues(r: Record)
    ensures var m := Fields(r);
            && m.Keys == FIELD_NAMES && m["schema_version"] == J.Int(1) && m["assignment"] == J.Obj(JobFields(r.assignment))
            && m["state"] == J.Str(PhaseName(r.state)) && m["before"] == LookValue(r.before) && m["outcome"] == OutcomeValue(r.outcome)
  {
    hide PhaseName, LookValue, OutcomeValue, JobFields;
  }

  lemma FieldsReadBack(r: Record)
    ensures FromFields(Fields(r)) == if Storable(r) then Some(r) else None
  {
    hide Fields, PhaseName, ParsePhase, OutcomeValue, ReadOutcome, ValidRecord, ReadJob, JobFields, ValidJob,
         LookHolds, OutcomeHolds, LookValue, ReadOptionalLook;
    FieldValues(r);
    PhaseReadsBack(r.state);
    JobReadsBack(r.assignment);
    OptionalLookReadsBack(r.before);
    OutcomeReadsBack(r.outcome);
  }

  lemma FieldsAreWritten(m: map<string, J.Value>)
    requires FromFields(m).Some?
    ensures m == Fields(FromFields(m).value)
  {
    hide Fields, PhaseName, ParsePhase, OutcomeValue, ReadOutcome, ValidRecord, ReadJob, JobFields, ValidJob, LookValue, ReadOptionalLook;
    FieldValues(FromFields(m).value);
    PhaseIsWritten(m["state"].text);
    JobIsWritten(m["assignment"]);
    OptionalLookIsWritten(m["before"]);
    OutcomeIsWritten(m["outcome"]);
    assert m == Fields(FromFields(m).value);
  }

  /** What is written to disk; None where the save throws. */
  function JournalBytes(r: Record): Option<string> {
    var v := J.Obj(Fields(r));
    if FromFields(v.fields).None? || !J.Serializable(v, J.MAXIMUM) then None else Some(J.Text(v))
  }

  function ReadJournal(bytes: string): Option<Record> {
    match G.ReadDocument(bytes, J.MAXIMUM)
    case Some(Obj(m)) => FromFields(m)
    case _ => None
  }

  /** Main result: exactly the records that meet the contract and fit are saved, and their bytes are read back as them. */
  lemma ReadAfterWrite(r: Record)
    ensures JournalBytes(r).Some? <==> Storable(r) && J.Serializable(J.Obj(Fields(r)), J.MAXIMUM)
    ensures JournalBytes(r).Some? ==> ReadJournal(JournalBytes(r).value) == Some(r)
  {
    hide Storable, Fields, FromFields, J.Serializable, J.Text, G.ReadDocument;
    FieldsReadBack(r);
    if JournalBytes(r).Some? { L.ParseAfterSerialize(J.Obj(Fields(r)), J.MAXIMUM); }
  }

  /** Whatever bytes are accepted hold a record that meets the contract, whose own bytes are no longer and read as the same. */
  lemma WriteAfterRead(bytes: string)
    requires ReadJournal(bytes).Some?
    ensures var r := ReadJournal(bytes).value;
            && Storable(r) && JournalBytes(r).Some? && |JournalBytes(r).value| <= |bytes|
            && JournalBytes(r).value == J.Text(G.ReadDocument(bytes, J.MAXIMUM).value)
  {
    hide Storable, Fields, FromFields, J.Serializable, J.Text, G.ReadDocument;
    var v := G.ReadDocument(bytes, J.MAXIMUM).value;
    FieldsAreWritten(v.fields);
    FieldsReadBack(FromFields(v.fields).value);
    L.SerializeAfterParse(bytes, J.MAXIMUM);
  }

  /** Two records that were saved as the same bytes are the same record, so comparing receipts by bytes compares records. */
  lemma BytesNameTheRecord(r: Record, s: Record)
    requires JournalBytes(r).Some? && JournalBytes(r) == JournalBytes(s)
    ensures r == s
  {
    hide JournalBytes, ReadJournal;
    ReadAfterWrite(r);
    ReadAfterWrite(s);
  }
}
