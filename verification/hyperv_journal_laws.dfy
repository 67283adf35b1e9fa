/**
 What each transition of the Hyper-V job record does, said on the stored
 document, and what stays of it over every run that follows.
 */
module HypervJournalLaws {
  import opened Wrappers
  import opened ManagementJsonText
  import opened ManagementJsonGrammar
  import opened ManagementJsonLaws
  import opened HypervJournal

  // ----- The stored document -----

  /** The nine stored fields, for the given phase and result. */
  function Stored(j: Journal, phase: string, result: Value): Value {
    Obj(map["schema" := Int(1), "job_id" := Str(j.identity.jobId), "input_digest" := Str(j.identity.inputDigest),
            "enrollment_device_uri" := Str(j.identity.deviceUri), "operation" := Str(OperationName(j.identity.action)),
            "vm_source_id" := Str(j.identity.vmSourceId), "phase" := Str(phase),
            "provider_job_ref" := Str(j.providerJobRef), "result_json" := result])
  }

  lemma StoredIsDocument(j: Journal, result: Value)
    requires j.identity.schema == 1
    ensures Obj(Fields(j, result)) == Stored(j, PhaseName(j.state), result)
  {
    hide OperationName, PhaseName;
  }

  /** The names that stand for the phases and the operations. */
  lemma NamesAreFixed(j: Journal)
    ensures PhaseName(j.state) == "prepared" <==> j.state.Prepared?
    ensures PhaseName(j.state) == "invoking" <==> j.state.Invoking?
    ensures PhaseName(j.state) == "observing" <==> j.state.Observing?
    ensures PhaseName(j.state) == "terminal" <==> j.state.Terminal?
    ensures PhaseName(j.state) == "requires_reconciliation" <==> j.state.RequiresReconciliation?
    ensures OperationName(j.identity.action) == "inspect" <==> j.identity.action.Inspect?
    ensures OperationName(j.identity.action) == "checkpoint_create" <==> j.identity.action.CheckpointCreate?
    ensures OperationName(j.identity.action) == "checkpoint_delete" <==> j.identity.action.CheckpointDelete?
    ensures OperationName(j.identity.action) == "checkpoint_apply" <==> j.identity.action.CheckpointApply?
    ensures OperationName(j.identity.action) == "settings_update" <==> j.identity.action.SettingsUpdate?
  {
    match j.state {
      case Prepared => case Invoking => case Observing => case Terminal => case RequiresReconciliation =>
    }
    match j.identity.action {
      case Inspect => case CheckpointCreate => case CheckpointDelete => case CheckpointApply => case SettingsUpdate =>
    }
  }

  /** The result a valid record holds: none before the end, an object that its text spells at the end. */
  function ResultOf(j: Journal): Value
    requires j.resultJson == "" || ReadDocument(j.resultJson, RESULT_LIMITS).Some?
  {
    if j.resultJson == "" then Null else ReadDocument(j.resultJson, RESULT_LIMITS).value
  }

  lemma HasResult(j: Journal)
    requires Valid(j)
    ensures j.resultJson == "" || ReadDocument(j.resultJson, RESULT_LIMITS).Some?
    ensures EmbeddedResult(j.resultJson) == Some(ResultOf(j))
    ensures j.state.Terminal? <==> ResultOf(j).Obj?
    ensures !j.state.Terminal? <==> ResultOf(j).Null?
  {
    hide ReadDocument, Serializable, Text, LocalProviderJobReference, ValidBinding;
  }

  /** What is on disk for a record, read without its decoder. */
  lemma StoredIsRead(j: Journal)
    requires Valid(j)
    ensures j.resultJson == "" || ReadDocument(j.resultJson, RESULT_LIMITS).Some?
    ensures ReadDocument(Encode(j).value, MAXIMUM) == Some(Stored(j, PhaseName(j.state), ResultOf(j)))
  {
    hide ReadDocument, Serializable, Text, LocalProviderJobReference, PhaseName, OperationName, Fields, Stored, ResultOf;
    HasResult(j);
    var result := ResultOf(j);
    StoredIsDocument(j, result);
    ParseAfterSerialize(Obj(Fields(j, result)), MAXIMUM);
  }

  // ----- Completion -----

  lemma ResultIsEmbedded(result: Value)
    requires result.Obj? && Serializable(result, RESULT_LIMITS)
    ensures Text(result) != "" && ReadDocument(Text(result), RESULT_LIMITS) == Some(result)
    ensures EmbeddedResult(Text(result)) == Some(result)
  {
    hide Text, Serializable, ReadDocument;
    ParseAfterSerialize(result, RESULT_LIMITS);
    TextStart(result);
  }

  /** A record of a call, with or without a local job, ends with any object that still fits into the document. */
  lemma CompletesExactly(j: Journal, result: Value)
    requires Valid(j)
    ensures !result.Obj? || !Serializable(result, RESULT_LIMITS) ==> Complete(j, result).None?
    ensures result.Obj? && Serializable(result, RESULT_LIMITS) ==>
              match j.state
              case Prepared =>
                Complete(j, result).Some? <==>
                  && "status" in result.fields && result.fields["status"] == Str("failed")
                  && "phase" in result.fields && result.fields["phase"] == Str("preflight")
                  && Serializable(Stored(j, "terminal", result), MAXIMUM)
              case Invoking => Complete(j, result).Some? <==> Serializable(Stored(j, "terminal", result), MAXIMUM)
              case Observing => Complete(j, result).Some? <==> Serializable(Stored(j, "terminal", result), MAXIMUM)
              case RequiresReconciliation => Complete(j, result).None?
              case Terminal => Complete(j, result).Some? <==> ReadDocument(j.resultJson, RESULT_LIMITS) == Some(result)
  {
    hide Text, Serializable, ReadDocument, Valid, Stored, LocalProviderJobReference;
    if result.Obj? && Serializable(result, RESULT_LIMITS) {
      ResultIsEmbedded(result);
      EndsValid(j, result);
      if j.state.Terminal? { TextIsResult(j, result); }
    }
  }

  lemma EndsValid(j: Journal, result: Value)
    requires Valid(j) && result.Obj? && Serializable(result, RESULT_LIMITS)
    ensures Valid(j.(state := Terminal, resultJson := Text(result))) <==> Serializable(Stored(j, "terminal", result), MAXIMUM)
  {
    hide Text, Serializable, ReadDocument, Stored, LocalProviderJobReference, OperationName, Fields, ValidBinding;
    var next := j.(state := Terminal, resultJson := Text(result));
    ResultIsEmbedded(result);
    SchemaIsOne(j);
    StoredIsDocument(next, result);
    SameStored(next, j, "terminal", result);
  }

  lemma SchemaIsOne(j: Journal)
    requires Valid(j)
    ensures j.identity.schema == 1
  {
    hide IsGuid, LowerHex, Serializable, Document, LocalProviderJobReference;
  }

  lemma SameStored(j: Journal, k: Journal, phase: string, result: Value)
    requires j.identity == k.identity && j.providerJobRef == k.providerJobRef
    ensures Stored(j, phase, result) == Stored(k, phase, result)
  {
    hide OperationName;
  }

  lemma TextIsResult(j: Journal, result: Value)
    requires Valid(j) && j.state.Terminal? && result.Obj? && Serializable(result, RESULT_LIMITS)
    ensures j.resultJson == Text(result) <==> ReadDocument(j.resultJson, RESULT_LIMITS) == Some(result)
  {
    hide Text, Serializable, ReadDocument, LocalProviderJobReference, ValidBinding, Fields;
    HasResult(j);
    ResultIsEmbedded(result);
  }

  /** The record ends with exactly the given result, keeps its job, and ends again only with that result. */
  lemma CompletedHoldsResult(j: Journal, result: Value)
    requires Complete(j, result).Some?
    ensures var r := Complete(j, result).value;
            && Valid(r) && r.state.Terminal? && r.identity == j.identity && r.providerJobRef == j.providerJobRef
            && ReadDocument(r.resultJson, RESULT_LIMITS) == Some(result)
            && ReadDocument(Encode(r).value, MAXIMUM) == Some(Stored(j, "terminal", result))
            && Complete(r, result) == Some(r)
            && (forall other :: Complete(r, other).Some? ==> other == result)
  {
    hide Text, Serializable, ReadDocument, Valid, Stored, LocalProviderJobReference, Encode;
    var r := Complete(j, result).value;
    ResultIsEmbedded(result);
    StoredIsRead(r);
    SameStored(r, j, "terminal", result);
    NamesAreFixed(r);
    CompletesExactly(r, result);
    forall other | Complete(r, other).Some? ensures other == result { CompletesExactly(r, other); }
  }

  // ----- The other transitions -----

  /** Only a prepared record begins, and nothing but its phase changes. */
  lemma BeginsExactly(j: Journal)
    ensures BeginInvocation(j).Some? <==> Valid(j) && j.state.Prepared?
    ensures BeginInvocation(j).Some? ==>
              var r := BeginInvocation(j).value;
              r.state.Invoking? && r.identity == j.identity && r.providerJobRef == "" && r.resultJson == ""
  {
    hide Document, Serializable, LocalProviderJobReference, ValidBinding;
  }

  /** A call is observed under exactly the given job reference, when the document still fits. */
  lemma ObservesExactly(j: Journal, localJob: string)
    ensures BeginObservation(j, localJob).Some? <==>
              && Valid(j) && j.state.Invoking? && LocalProviderJobReference(localJob)
              && Serializable(Stored(j.(providerJobRef := localJob), "observing", Null), MAXIMUM)
    ensures BeginObservation(j, localJob).Some? ==>
              var r := BeginObservation(j, localJob).value;
              Valid(r) && r.state.Observing? && r.identity == j.identity && r.providerJobRef == localJob && r.resultJson == ""
  {
    hide Text, Serializable, ReadDocument, Stored, OperationName, Fields, ValidBinding, IsLocalJob;
    if Valid(j) && j.state.Invoking? && LocalProviderJobReference(localJob) {
      var next := j.(state := Observing, providerJobRef := localJob);
      SchemaIsOne(j);
      StoredIsDocument(next, Null);
      SameStored(next, j.(providerJobRef := localJob), "observing", Null);
    }
  }

  /** After a restart a record is as it was, except that a call that may have been made waits for an operator. */
  lemma RecoversExactly(j: Journal)
    ensures Recover(j).Some? <==> Valid(j)
    ensures Valid(j) && !j.state.Invoking? ==> Recover(j) == Some(j)
    ensures Valid(j) && j.state.Invoking? ==> Recover(j).Some? && Recover(j).value.state.RequiresReconciliation?
    ensures Recover(j).Some? ==>
              var r := Recover(j).value;
              r.identity == j.identity && r.providerJobRef == j.providerJobRef && r.resultJson == j.resultJson
  {
    hide Valid;
  }

  lemma ReconcilesExactly(j: Journal)
    ensures RequireReconciliation(j).Some? <==> Valid(j) && (j.state.Invoking? || j.state.Observing? || j.state.RequiresReconciliation?)
    ensures RequireReconciliation(j).Some? ==>
              var r := RequireReconciliation(j).value;
              r.state.RequiresReconciliation? && r.identity == j.identity && r.providerJobRef == j.providerJobRef && r.resultJson == ""
  {
    hide Document, Serializable, LocalProviderJobReference, ValidBinding;
  }

  /** What a delivery is answered, by what the record holds. */
  lemma DeliveryIsDecided(j: Journal, incoming: Binding)
    ensures OnDelivery(j, incoming) == Reject <==> !Valid(j) || !ValidBinding(incoming) || j.identity != incoming
    ensures Valid(j) && j.identity == incoming ==>
              && (OnDelivery(j, incoming) == Invoke <==> j.state.Prepared?)
              && (OnDelivery(j, incoming) == Reconcile <==> j.state.Invoking? || j.state.RequiresReconciliation?)
              && (OnDelivery(j, incoming) == ResumeObservation <==> j.state.Observing?)
              && (OnDelivery(j, incoming) == ReportTerminal <==> j.state.Terminal?)
    ensures OnDelivery(j, incoming) == ResumeObservation ==> LocalProviderJobReference(j.providerJobRef)
    ensures OnDelivery(j, incoming) == ReportTerminal ==>
              ReadDocument(j.resultJson, RESULT_LIMITS).Some? && ReadDocument(j.resultJson, RESULT_LIMITS).value.Obj?
  {
    hide Text, Serializable, ReadDocument, ValidBinding, LocalProviderJobReference;
    if Valid(j) { BindingOf(j); HasResult(j); }
  }

  lemma BindingOf(j: Journal)
    requires Valid(j)
    ensures ValidBinding(j.identity)
  {
    hide ValidBinding;
  }

  // ----- Runs -----

  /** The record a transition gave is the one on disk once it is saved. */
  lemma PersistSaves(m: Machine)
    requires Valid(m.memory)
    ensures var n := Next(m, Persist); Decode(n.disk) == Some(m.memory) && n.memory == m.memory
  {
    hide Valid, Encode, Decode;
    DecodeAfterEncode(m.memory);
  }

  /** A prepared record is called for once it is durably invoking, if that record can be stored at all. */
  lemma CallIsReached(m: Machine)
    requires m.memory.state.Prepared? && Valid(m.memory)
    ensures var n := Run(m, [Begin, Persist, CallProvider]);
            && n.memory == m.memory.(state := Invoking)
            && (Valid(n.memory) ==> n.calls == m.calls + 1 && Decode(n.disk) == Some(n.memory))
  {
    hide Valid, Encode, Decode;
    BeginsExactly(m.memory);
    var k := Next(m, Begin);
    DecodeAfterEncode(k.memory);
    assert [Begin, Persist, CallProvider][1..] == [Persist, CallProvider] && [Persist, CallProvider][1..] == [CallProvider];
  }

  /** Once a completion is saved, every load in every later run returns its result, and every delivery reports it. */
  lemma CompletedIsLoaded(m: Machine, result: Value, steps: seq<HypervJournal.Step>)
    requires Consistent(m) && Complete(m.memory, result).Some?
    ensures var n := Run(Next(Next(m, Finish(result)), Persist), steps);
            && Decode(n.disk).Some? && n.memory == Saved(n) && Saved(n).identity == m.memory.identity && Saved(n).state.Terminal?
            && ReadDocument(Saved(n).resultJson, RESULT_LIMITS) == Some(result)
            && OnDelivery(Saved(n), m.memory.identity) == ReportTerminal
  {
    hide Valid, Encode, Decode, Run, Complete, ReadDocument, OnDelivery, Consistent;
    var k := Next(m, Finish(result));
    StepIsSafe(m, Finish(result));
    CompletedHoldsResult(m.memory, result);
    PersistSaves(k);
    StepIsSafe(k, Persist);
    var p := Next(k, Persist);
    RunIsSafe(p, steps);
    MemoryIsSettled(Run(p, steps));
    DeliveryIsDecided(Saved(Run(p, steps)), m.memory.identity);
  }

  lemma MemoryIsSettled(m: Machine)
    requires Consistent(m) && Rank(Saved(m).state) == 3
    ensures Decode(m.disk).Some? && m.memory == Saved(m)
  {
    hide Decode;
  }

  /** The observed job is the one on disk and in memory. */
  ghost predicate Observed(m: Machine, localJob: string) {
    && Consistent(m) && Saved(m).providerJobRef == localJob && m.memory.providerJobRef == localJob
    && Rank(Saved(m).state) >= 2
  }

  lemma ObservedStays(m: Machine, localJob: string, step: HypervJournal.Step)
    requires Observed(m, localJob)
    ensures Observed(Next(m, step), localJob)
  {
    hide Valid, Encode, Decode, Text, Serializable;
    StepIsSafe(m, step);
    DecodeAfterEncode(m.memory);
  }

  lemma {:induction false} ObservedOverRuns(m: Machine, localJob: string, steps: seq<HypervJournal.Step>)
    requires Observed(m, localJob)
    ensures Observed(Run(m, steps), localJob)
    decreases |steps|
  {
    hide Next, Observed;
    if steps != [] {
      ObservedStays(m, localJob, steps[0]);
      ObservedOverRuns(Next(m, steps[0]), localJob, steps[1..]);
    }
  }

  lemma ObservationIsSaved(m: Machine, localJob: string)
    requires Consistent(m) && BeginObservation(m.memory, localJob).Some?
    ensures var p := Next(Next(m, Observe(localJob)), Persist);
            Observed(p, localJob) && Decode(p.disk) == Some(p.memory) && Valid(p.memory) && p.memory == BeginObservation(m.memory, localJob).value
  {
    hide Valid, Encode, Decode, BeginObservation, Consistent, Serializable, Stored, LocalProviderJobReference;
    var k := Next(m, Observe(localJob));
    StepIsSafe(m, Observe(localJob));
    ObservesExactly(m.memory, localJob);
    PersistSaves(k);
    StepIsSafe(k, Persist);
  }

  lemma RestartLoads(m: Machine)
    requires Decode(m.disk) == Some(m.memory) && Valid(m.memory) && !m.memory.state.Invoking?
    ensures Next(m, Restart).memory == m.memory
  {
    hide Valid, Decode;
    RecoversExactly(m.memory);
  }

  /** Once an observation is saved, every later record is about its job, and a restart goes on with the same record. */
  lemma ObservationIsLoaded(m: Machine, localJob: string, steps: seq<HypervJournal.Step>)
    requires Consistent(m) && BeginObservation(m.memory, localJob).Some?
    ensures var p := Next(Next(m, Observe(localJob)), Persist); var n := Run(p, steps);
            && Decode(p.disk) == BeginObservation(m.memory, localJob) && Next(p, Restart).memory == BeginObservation(m.memory, localJob).value
            && OnDelivery(Saved(p), m.memory.identity) == ResumeObservation
            && Decode(n.disk).Some? && Saved(n).providerJobRef == localJob && n.memory.providerJobRef == localJob
  {
    hide Valid, Encode, Decode, Run, Next, BeginObservation, OnDelivery, Serializable, Stored, LocalProviderJobReference;
    var p := Next(Next(m, Observe(localJob)), Persist);
    ObservationIsSaved(m, localJob);
    ObservesExactly(m.memory, localJob);
    RestartLoads(p);
    DeliveryIsDecided(p.memory, m.memory.identity);
    ObservedOverRuns(p, localJob, steps);
  }

  /** A process that ends after `invoking` was saved leaves a record that waits for an operator, and never a second call. */
  lemma InterruptedCallIsFenced(m: Machine, steps: seq<HypervJournal.Step>)
    requires Consistent(m) && Saved(m).state.Invoking?
    ensures var n := Next(m, Restart);
            && n.memory.state.RequiresReconciliation? && n.memory.identity == Saved(m).identity
            && Run(n, steps).calls == m.calls
  {
    hide Valid, Encode, Decode, Run;
    StepIsSafe(m, Restart);
    SavedIsValid(m);
    RecoversExactly(Saved(m));
    Waiting(Next(m, Restart), steps);
  }

  lemma SavedIsValid(m: Machine)
    requires Decode(m.disk).Some?
    ensures Valid(Saved(m))
  {
    hide ReadDocument, Valid, FromFields;
  }

  /** Without a record in memory that may still begin or is just begun, no call is made. */
  lemma {:induction false} Waiting(m: Machine, steps: seq<HypervJournal.Step>)
    requires Consistent(m) && m.memory.state.RequiresReconciliation? && !m.began && (Saved(m).state.Invoking? || Saved(m).state.RequiresReconciliation?)
    ensures Run(m, steps).calls == m.calls
    decreases |steps|
  {
    hide Next, Decode;
    if steps != [] {
      StepIsSafe(m, steps[0]);
      WaitingStays(m, steps[0]);
      Waiting(Next(m, steps[0]), steps[1..]);
    }
  }

  lemma WaitingStays(m: Machine, step: HypervJournal.Step)
    requires Consistent(m) && m.memory.state.RequiresReconciliation? && !m.began && (Saved(m).state.Invoking? || Saved(m).state.RequiresReconciliation?)
    ensures var n := Next(m, step);
            Consistent(n) && n.memory.state.RequiresReconciliation? && !n.began && (Saved(n).state.Invoking? || Saved(n).state.RequiresReconciliation?) && n.calls == m.calls
  {
    hide Valid, Encode, Decode, Text, Serializable;
    StepIsSafe(m, step);
    DecodeAfterEncode(m.memory);
  }
}
