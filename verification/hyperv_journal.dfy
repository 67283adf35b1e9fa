/**
 The durable record of one Hyper-V management job: its persistence codec over
 the contract JSON, its pure transitions, and what holds over every run of
 transitions, saves, crashes and restarts.
 */
module HypervJournal {
  import opened Wrappers
  import opened ManagementJsonText
  import opened ManagementJsonGrammar
  import opened ManagementJsonLaws

  datatype Operation = Inspect | CheckpointCreate | CheckpointDelete | CheckpointApply | SettingsUpdate

  datatype Phase = Prepared | Invoking | Observing | Terminal | RequiresReconciliation

  datatype DeliveryAction = Invoke | ResumeObservation | ReportTerminal | Reconcile | Reject

  datatype Binding = Binding(schema: int64, jobId: string, inputDigest: string, deviceUri: string, action: Operation, vmSourceId: string)

  /** `resultJson` is empty unless the record is terminal; `providerJobRef` is empty until a local job is known. */
  datatype Journal = Journal(identity: Binding, state: Phase, providerJobRef: string, resultJson: string)

  const RESULT_LIMITS := Limits(48 * 1024, 8, 4096, 16 * 1024)

  const DEVICE_PREFIX := "urn:ipms:agent:"

  // ----- Validity -----

  predicate LowerHex(c: char) { '0' <= c <= '9' || 'a' <= c <= 'f' }

  predicate IsGuid(s: string) {
    |s| == 36 && forall i | 0 <= i < 36 :: if i in {8, 13, 18, 23} then s[i] == '-' else LowerHex(s[i])
  }

  predicate ValidBinding(b: Binding) {
    && b.schema == 1 && IsGuid(b.jobId) && IsGuid(b.vmSourceId)
    && |b.inputDigest| == 64 && (forall i | 0 <= i < 64 :: LowerHex(b.inputDigest[i]))
    && DEVICE_PREFIX <= b.deviceUri
    && var device := b.deviceUri[|DEVICE_PREFIX|..];
       IsGuid(device) && device[14] == '4' && device[19] in {'8', '9', 'a', 'b'}
  }

  predicate IsKeyChar(c: char) {
    'a' <= c <= 'z' || 'A' <= c <= 'Z' || '0' <= c <= '9' || c in {':', '-', '_', '.', '{', '}'}
  }

  predicate IsLocalJob(s: string, prefix: string) {
    prefix <= s && |prefix| + 1 < |s| <= |prefix| + 257
    && forall i | |prefix| <= i < |s| - 1 :: IsKeyChar(s[i])
  }

  predicate LocalProviderJobReference(s: string) {
    && s != "" && |s| <= 512 && s[|s| - 1] == '"'
    && (IsLocalJob(s, "Msvm_ConcreteJob.InstanceID=\"") || IsLocalJob(s, "Msvm_MigrationJob.Name=\""))
  }

  predicate BasicValid(j: Journal) {
    && ValidBinding(j.identity)
    && (j.providerJobRef == "" || LocalProviderJobReference(j.providerJobRef))
    && match j.state
       case Prepared => j.providerJobRef == "" && j.resultJson == ""
       case Invoking => j.providerJobRef == "" && j.resultJson == ""
       case Observing => j.providerJobRef != "" && j.resultJson == ""
       case RequiresReconciliation => j.resultJson == ""
       case Terminal => j.resultJson != ""
  }

  function OperationName(o: Operation): string {
    match o
    case Inspect => "inspect"
    case CheckpointCreate => "checkpoint_create"
    case CheckpointDelete => "checkpoint_delete"
    case CheckpointApply => "checkpoint_apply"
    case SettingsUpdate => "settings_update"
  }

  function ParseOperation(s: string): Option<Operation> {
    if s == "inspect" then Some(Inspect)
    else if s == "checkpoint_create" then Some(CheckpointCreate)
    else if s == "checkpoint_delete" then Some(CheckpointDelete)
    else if s == "checkpoint_apply" then Some(CheckpointApply)
    else if s == "settings_update" then Some(SettingsUpdate)
    else None
  }

  function PhaseName(p: Phase): string {
    match p
    case Prepared => "prepared"
    case Invoking => "invoking"
    case Observing => "observing"
    case Terminal => "terminal"
    case RequiresReconciliation => "requires_reconciliation"
  }

  function ParsePhase(s: string): Option<Phase> {
    if s == "prepared" then Some(Prepared)
    else if s == "invoking" then Some(Invoking)
    else if s == "observing" then Some(Observing)
    else if s == "terminal" then Some(Terminal)
    else if s == "requires_reconciliation" then Some(RequiresReconciliation)
    else None
  }

  // ----- Codec -----

  /** The result embedded in the document, when it is canonical bounded object text. */
  function EmbeddedResult(resultJson: string): Option<Value> {
    if resultJson == "" then Some(Null)
    else
      match ReadDocument(resultJson, RESULT_LIMITS)
      case None => None
      case Some(v) => if v.Obj? && Serializable(v, RESULT_LIMITS) && Text(v) == resultJson then Some(v) else None
  }

  // The source counts nine fields and finds each of these nine names.
  const FIELD_NAMES := {"schema", "job_id", "input_digest", "enrollment_device_uri", "operation", "vm_source_id",
                        "phase", "provider_job_ref", "result_json"}

  function Fields(j: Journal, result: Value): map<string, Value> {
    map["schema" := Int(j.identity.schema),
        "job_id" := Str(j.identity.jobId),
        "input_digest" := Str(j.identity.inputDigest),
        "enrollment_device_uri" := Str(j.identity.deviceUri),
        "operation" := Str(OperationName(j.identity.action)),
        "vm_source_id" := Str(j.identity.vmSourceId),
        "phase" := Str(PhaseName(j.state)),
        "provider_job_ref" := Str(j.providerJobRef),
        "result_json" := result]
  }

  function Document(j: Journal): Option<Value> {
    match EmbeddedResult(j.resultJson)
    case None => None
    case Some(result) => Some(Obj(Fields(j, result)))
  }

  function Encode(j: Journal): Option<string> {
    if !BasicValid(j) then None
    else
      match Document(j)
      case None => None
      case Some(v) => if Serializable(v, MAXIMUM) then Some(Text(v)) else None
  }

  predicate Valid(j: Journal) {
    && BasicValid(j)
    && Document(j).Some?
    && Serializable(Document(j).value, MAXIMUM)
  }

  function StringField(m: map<string, Value>, key: string): Option<string> {
    if key in m && m[key].Str? then Some(m[key].text) else None
  }

  function FromFields(m: map<string, Value>): Option<Journal> {
    if m.Keys != FIELD_NAMES || m["schema"] != Int(1) then None
    else
      match (StringField(m, "job_id"), StringField(m, "input_digest"), StringField(m, "enrollment_device_uri"),
             StringField(m, "operation"), StringField(m, "vm_source_id"), StringField(m, "phase"),
             StringField(m, "provider_job_ref"))
      case (Some(jobId), Some(digest), Some(uri), Some(operation), Some(vm), Some(phase), Some(job)) =>
        (match (ParseOperation(operation), ParsePhase(phase))
         case (Some(action), Some(state)) =>
           var result := m["result_json"];
           var j := Journal(Binding(1, jobId, digest, uri, action, vm), state, job, "");
           if result.Null? then Some(j)
           else if result.Obj? && Serializable(result, RESULT_LIMITS) then Some(j.(resultJson := Text(result)))
           else None
         case _ => None)
      case _ => None
  }

  function Decode(s: string): Option<Journal> {
    match ReadDocument(s, MAXIMUM)
    case Some(Obj(m)) => (match FromFields(m) case Some(j) => if Valid(j) then Some(j) else None case None => None)
    case _ => None
  }

  lemma FieldValues(j: Journal, result: Value)
    ensures var m := Fields(j, result);
            && m.Keys == FIELD_NAMES && m["schema"] == Int(j.identity.schema) && m["result_json"] == result
            && m["job_id"] == Str(j.identity.jobId) && m["input_digest"] == Str(j.identity.inputDigest)
            && m["enrollment_device_uri"] == Str(j.identity.deviceUri)
  {
  }

  lemma FieldValuesMore(j: Journal, result: Value)
    ensures var m := Fields(j, result);
            && m.Keys == FIELD_NAMES
            && m["operation"] == Str(OperationName(j.identity.action)) && m["vm_source_id"] == Str(j.identity.vmSourceId)
            && m["phase"] == Str(PhaseName(j.state)) && m["provider_job_ref"] == Str(j.providerJobRef)
  {
    hide OperationName, PhaseName;
  }

  lemma NamesReadBack(o: Operation, p: Phase)
    ensures ParseOperation(OperationName(o)) == Some(o)
    ensures ParsePhase(PhaseName(p)) == Some(p)
  {
    match o {
      case Inspect => case CheckpointCreate => case CheckpointDelete => case CheckpointApply => case SettingsUpdate =>
    }
    match p {
      case Prepared => case Invoking => case Observing => case Terminal => case RequiresReconciliation =>
    }
  }

  lemma FieldsReadBack(j: Journal, result: Value)
    requires j.identity.schema == 1 && EmbeddedResult(j.resultJson) == Some(result)
    ensures FromFields(Fields(j, result)) == Some(j)
  {
    hide Fields, OperationName, PhaseName, ParseOperation, ParsePhase, ReadDocument;
    FieldValues(j, result);
    FieldValuesMore(j, result);
    NamesReadBack(j.identity.action, j.state);
  }

  /** A record is valid exactly when it can be encoded, and then decoding returns it. */
  lemma DecodeAfterEncode(j: Journal)
    ensures Valid(j) <==> Encode(j).Some?
    ensures Valid(j) ==> Decode(Encode(j).value) == Some(j)
  {
    if Valid(j) {
      ParseAfterSerialize(Document(j).value, MAXIMUM);
      FieldsReadBack(j, EmbeddedResult(j.resultJson).value);
    }
  }

  /** Two records never share an encoding. */
  lemma EncodeIsInjective(j: Journal, k: Journal)
    requires Valid(j) && Valid(k) && Encode(j) == Encode(k)
    ensures j == k
  {
    DecodeAfterEncode(j);
    DecodeAfterEncode(k);
  }

  lemma OperationNameAfterParse(s: string)
    ensures ParseOperation(s).Some? ==> OperationName(ParseOperation(s).value) == s
    ensures ParsePhase(s).Some? ==> PhaseName(ParsePhase(s).value) == s
  {
  }

  lemma SameFields(m: map<string, Value>, j: Journal, result: Value)
    requires m.Keys == FIELD_NAMES && m["schema"] == Int(1) && j.identity.schema == 1 && m["result_json"] == result
    requires m["job_id"] == Str(j.identity.jobId) && m["input_digest"] == Str(j.identity.inputDigest)
    requires m["enrollment_device_uri"] == Str(j.identity.deviceUri)
    requires m["operation"] == Str(OperationName(j.identity.action)) && m["vm_source_id"] == Str(j.identity.vmSourceId)
    requires m["phase"] == Str(PhaseName(j.state)) && m["provider_job_ref"] == Str(j.providerJobRef)
    ensures m == Fields(j, result)
  {
    hide Fields, OperationName, PhaseName;
    FieldValues(j, result);
    FieldValuesMore(j, result);
  }

  /** Whatever decodes is a valid record, and its encoding is the canonical form of the text, not longer. */
  lemma EncodeAfterDecode(s: string)
    requires Decode(s).Some?
    ensures var j := Decode(s).value;
            Valid(j) && |Encode(j).value| <= |s|
            && ReadDocument(s, MAXIMUM) == Document(j) && Encode(j) == Some(Text(Document(j).value))
  {
    hide Text, Serializable, OperationName, PhaseName, ParseOperation, ParsePhase, Fields, ReadDocument, BasicValid;
    var v := ReadDocument(s, MAXIMUM).value;
    var m := v.fields;
    var j := Decode(s).value;
    SerializeAfterParse(s, MAXIMUM);
    OperationNameAfterParse(m["operation"].text);
    OperationNameAfterParse(m["phase"].text);
    var result := m["result_json"];
    if result.Obj? {
      ParseAfterSerialize(result, RESULT_LIMITS);
      TextStart(result);
    }
    assert EmbeddedResult(j.resultJson) == Some(result);
    SameFields(m, j, result);
  }

  // ----- Transitions -----

  function Prepare(b: Binding): Option<Journal> {
    if ValidBinding(b) then Some(Journal(b, Prepared, "", "")) else None
  }

  function OnDelivery(j: Journal, incoming: Binding): DeliveryAction {
    if !ValidBinding(incoming) || !Valid(j) || j.identity != incoming then Reject
    else
      match j.state
      case Prepared => Invoke
      case Invoking => Reconcile
      case RequiresReconciliation => Reconcile
      case Observing => ResumeObservation
      case Terminal => ReportTerminal
  }

  function BeginInvocation(j: Journal): Option<Journal> {
    if Valid(j) && j.state.Prepared? then Some(j.(state := Invoking)) else None
  }

  function BeginObservation(j: Journal, localJob: string): Option<Journal> {
    if !Valid(j) || !j.state.Invoking? || !LocalProviderJobReference(localJob) then None
    else
      var next := j.(state := Observing, providerJobRef := localJob);
      if Valid(next) then Some(next) else None
  }

  predicate IsFailedPreflight(fields: map<string, Value>) {
    && "status" in fields && "phase" in fields
    && fields["status"] == Str("failed") && fields["phase"] == Str("preflight")
  }

  function Complete(j: Journal, result: Value): Option<Journal> {
    if !Valid(j) || !result.Obj? || !Serializable(result, RESULT_LIMITS) then None
    else if j.state.Terminal? then
      if j.resultJson == Text(result) then Some(j) else None
    else if j.state.Prepared? && !IsFailedPreflight(result.fields) then None
    else if j.state.RequiresReconciliation? then None
    else
      var next := j.(state := Terminal, resultJson := Text(result));
      if Valid(next) then Some(next) else None
  }

  function RequireReconciliation(j: Journal): Option<Journal> {
    if !Valid(j) || j.state.Prepared? || j.state.Terminal? then None
    else Some(j.(state := RequiresReconciliation))
  }

  function Recover(j: Journal): Option<Journal> {
    if !Valid(j) then None
    else if !j.state.Invoking? then Some(j)
    else RequireReconciliation(j)
  }

  // ----- Runs -----

  datatype Step =
    | Begin
    | Observe(localJob: string)
    | Finish(result: Value)
    | Fence
    | Persist          // the record in memory is written and flushed
    | CallProvider     // the provider is invoked
    | Restart          // the process ends anywhere; the next one reads the record back and recovers it

  /** `began`: this process moved the record to `invoking` itself and has not called the provider since. */
  datatype Machine = Machine(disk: string, memory: Journal, began: bool, calls: nat)

  function Move(m: Machine, next: Option<Journal>): Machine {
    if next.Some? then m.(memory := next.value, began := false) else m
  }

  function Next(m: Machine, step: Step): Machine {
    match step
    case Begin => (match BeginInvocation(m.memory) case Some(j) => m.(memory := j, began := true) case None => m)
    case Observe(job) => Move(m, BeginObservation(m.memory, job))
    case Finish(result) => Move(m, Complete(m.memory, result))
    case Fence => Move(m, RequireReconciliation(m.memory))
    case Persist => (match Encode(m.memory) case Some(bytes) => m.(disk := bytes) case None => m)
    case CallProvider =>
      if m.began && Some(m.disk) == Encode(m.memory) then m.(calls := m.calls + 1, began := false) else m
    case Restart =>
      (match Decode(m.disk)
       case Some(j) => (match Recover(j) case Some(r) => m.(memory := r, began := false) case None => m)
       case None => m)
  }

  function Run(m: Machine, steps: seq<Step>): Machine
    decreases |steps|
  {
    if steps == [] then m else Run(Next(m, steps[0]), steps[1..])
  }

  /** How far a record has come; a settled record is never replaced. */
  function Rank(p: Phase): nat {
    match p
    case Prepared => 0
    case Invoking => 1
    case Observing => 2
    case Terminal => 3
    case RequiresReconciliation => 3
  }

  ghost function Saved(m: Machine): Journal
    requires Decode(m.disk).Some?
  {
    Decode(m.disk).value
  }

  /** The record in memory continues the record on disk, and no provider was called before `invoking` was durable. */
  ghost predicate Consistent(m: Machine) {
    && Decode(m.disk).Some?
    && Saved(m).identity == m.memory.identity
    && Rank(Saved(m).state) <= Rank(m.memory.state)
    && (Rank(Saved(m).state) == 3 ==> m.memory == Saved(m))
    && m.calls <= 1
    && (m.calls == 1 ==> Rank(Saved(m).state) > 0)
    && (m.began ==> m.memory.state.Invoking? && m.calls == 0)
  }

  lemma StepIsSafe(m: Machine, step: Step)
    requires Consistent(m)
    ensures Consistent(Next(m, step))
    ensures var n := Next(m, step);
            Saved(n).identity == Saved(m).identity && Rank(Saved(m).state) <= Rank(Saved(n).state) && (Rank(Saved(m).state) == 3 ==> Saved(n) == Saved(m) && n.calls == m.calls)
  {
    hide Valid, Encode, Decode, Text, Serializable;
    DecodeAfterEncode(m.memory);
  }

  /** Over every run, phases only advance, a settled record stays as it is, and the provider is called at most once. */
  lemma {:induction false} RunIsSafe(m: Machine, steps: seq<Step>)
    requires Consistent(m)
    ensures var n := Run(m, steps);
            && Consistent(n) && n.calls <= 1
            && Saved(n).identity == Saved(m).identity && Rank(Saved(m).state) <= Rank(Saved(n).state)
            && (Rank(Saved(m).state) == 3 ==> Saved(n) == Saved(m) && n.calls == m.calls)
    decreases |steps|
  {
    hide Next, Decode, Rank;
    if steps != [] {
      StepIsSafe(m, steps[0]);
      RunIsSafe(Next(m, steps[0]), steps[1..]);
    }
  }

  /** A prepared record that was saved starts a consistent run with no call made. */
  lemma PreparedStarts(b: Binding)
    requires Prepare(b).Some? && Encode(Prepare(b).value).Some?
    ensures Consistent(Started(b))
  {
    DecodeAfterEncode(Prepare(b).value);
  }

  /** The machine that starts from a prepared and saved record. */
  function Started(b: Binding): Machine
    requires Prepare(b).Some? && Encode(Prepare(b).value).Some?
  {
    Machine(Encode(Prepare(b).value).value, Prepare(b).value, false, 0)
  }

  /**
   Over every run from a prepared record, what is on disk answers a delivery: it says to invoke only while no call was made,
   a delivery with another binding is rejected, and one that reports the terminal result never comes with a different one later.
   */
  lemma DeliveryNeverRepeats(b: Binding, steps: seq<Step>, more: seq<Step>, incoming: Binding)
    requires Prepare(b).Some? && Encode(Prepare(b).value).Some?
    ensures var m := Run(Started(b), steps);
            && Decode(m.disk).Some? && Saved(m).identity == b
            && (OnDelivery(Saved(m), incoming) == Invoke ==> m.calls == 0)
            && (incoming != b ==> OnDelivery(Saved(m), incoming) == Reject)
            && (OnDelivery(Saved(m), incoming) == ReportTerminal ==>
                  Decode(Run(m, more).disk).Some? && Saved(Run(m, more)) == Saved(m) && Run(m, more).calls == m.calls)
  {
    hide Run, Decode, Encode, Valid, ValidBinding;
    PreparedStarts(b);
    PreparedIdentity(b);
    RunIsSafe(Started(b), steps);
    var m := Run(Started(b), steps);
    RunIsSafe(m, more);
  }

  lemma PreparedIdentity(b: Binding)
    requires Prepare(b).Some? && Encode(Prepare(b).value).Some?
    ensures Decode(Started(b).disk).Some? && Saved(Started(b)).identity == b
  {
    hide Encode, Decode, ValidBinding;
    DecodeAfterEncode(Prepare(b).value);
  }
}
