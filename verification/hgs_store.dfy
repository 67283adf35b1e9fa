/**
 The protected files behind the HGS journal: the current record, one immutable
 receipt for each job, the reconciliation fence and its releases. Each file is
 written atomically; `states` keeps the disk after every single write, so that
 a crash inside an operation leaves one of them.
 */
module HgsStore {
  import opened Wrappers
  import opened AtomicWrites
  import opened HgsManagement

  /** Receipts and releases are files named by job; a release holds the plan digest it was issued for. */
  datatype Disk = Disk(current: Option<Record>, receipts: map<string, Record>, fence: Option<Record>, releases: map<string, string>)

  datatype Write = PutReceipt(record: Record) | PutFence(record: Record) | PutCurrent(record: Record)

  function Perform(d: Disk, w: Write): Disk {
    match w
    case PutReceipt(r) => d.(receipts := d.receipts[r.assignment.jobId := r])
    case PutFence(r) => d.(fence := Some(r))
    case PutCurrent(r) => d.(current := Some(r))
  }

  predicate NeedsReconciliation(r: Record) {
    r.state.Terminal? && r.outcome.Some? && r.outcome.value.status.ReconciliationRequired?
  }

  datatype Fence = Open | Broken | Closed(record: Record)

  function FenceOf(d: Disk): Fence {
    match d.fence
    case None => Open
    case Some(r) =>
      if !NeedsReconciliation(r) then Broken
      else if r.assignment.jobId !in d.releases then Closed(r)
      else if d.releases[r.assignment.jobId] == r.assignment.planDigest then Open
      else Broken
  }

  /** The writes a save makes, and whether it then refuses to go on. */
  datatype Plan = Plan(writes: seq<Write>, refused: bool)

  function PlanOf(d: Disk, r: Record): Plan {
    var id := r.assignment.jobId;
    if !r.state.Terminal? then Plan([PutCurrent(r)], false)
    else if id in d.receipts && d.receipts[id] != r then Plan([], true)
    else
      var receipt := if id in d.receipts then [] else [PutReceipt(r)];
      if !NeedsReconciliation(r) then Plan(receipt + [PutCurrent(r)], false)
      else if FenceOf(d).Broken? || (FenceOf(d).Closed? && FenceOf(d).record.assignment != r.assignment) then Plan(receipt, true)
      else Plan(receipt + [PutFence(r), PutCurrent(r)], false)
  }

  predicate ReleaseMatches(fenced: Record, jobId: string, planDigest: string) {
    NeedsReconciliation(fenced) && fenced.assignment.jobId == jobId && fenced.assignment.planDigest == planDigest
  }

  /** Other jobs may only be inspected while a fence is closed. */
  predicate PermittedWhileFenced(fenced: Record, offered: Job) {
    && offered.operation.Inspect?
    && offered.tenantId == fenced.assignment.tenantId && offered.enrollmentId == fenced.assignment.enrollmentId
    && offered.deviceUri == fenced.assignment.deviceUri
  }

  function AfterRelease(d: Disk, jobId: string, planDigest: string): Disk {
    if jobId in d.releases then d
    else
      match FenceOf(d)
      case Closed(fenced) =>
        if ReleaseMatches(fenced, jobId, planDigest) then d.(releases := d.releases[jobId := planDigest]) else d
      case _ => d
  }

  lemma TerminalHasOutcome(r: Record)
    requires ValidRecord(r)
    ensures r.state.Terminal? ==> r.outcome.Some?
  {
  }

  lemma ReceiptKeepsFence(d: Disk, r: Record)
    ensures FenceOf(Perform(d, PutReceipt(r))) == FenceOf(d)
  {
  }

  class Store {
    var current: Option<Record>
    var receipts: map<string, Record>
    var fence: Option<Record>
    var releases: map<string, string>
    ghost var states: seq<Disk>

    constructor (d: Disk)
      ensures Value() == d && states == []
    {
      current, receipts, fence, releases := d.current, d.receipts, d.fence, d.releases;
      states := [];
    }

    function Value(): Disk
      reads this
    {
      Disk(current, receipts, fence, releases)
    }

    method WriteReceipt(r: Record)
      modifies this
      ensures Value() == Perform(old(Value()), PutReceipt(r)) && states == old(states) + [Value()]
    {
      receipts := receipts[r.assignment.jobId := r];
      states := states + [Value()];
    }

    method WriteFence(r: Record)
      modifies this
      ensures Value() == Perform(old(Value()), PutFence(r)) && states == old(states) + [Value()]
    {
      fence := Some(r);
      states := states + [Value()];
    }

    method WriteCurrent(r: Record)
      modifies this
      ensures Value() == Perform(old(Value()), PutCurrent(r)) && states == old(states) + [Value()]
    {
      current := Some(r);
      states := states + [Value()];
    }

    method LoadFence() returns (f: Fence)
      ensures f == FenceOf(Value())
    {
      if fence.None? { return Open; }
      var r := fence.value;
      if !NeedsReconciliation(r) { return Broken; }
      if r.assignment.jobId in releases {
        return if releases[r.assignment.jobId] == r.assignment.planDigest then Open else Broken;
      }
      f := Closed(r);
    }

    /** Writes the receipt once, closes the fence for a reconciliation, then replaces the current record. */
    method SaveJournal(r: Record) returns (ok: bool)
      requires ValidRecord(r)
      modifies this
      ensures var plan := PlanOf(old(Value()), r);
              && ok == !plan.refused
              && Value() == PerformAll(Perform, old(Value()), plan.writes)
              && states == old(states) + Stages(Perform, old(Value()), plan.writes)
    {
      hide FenceOf, ValidRecord, PerformAll, Stages;
      TerminalHasOutcome(r);
      NoWrites(Perform, Value());
      ghost var d := Value();
      ReceiptKeepsFence(d, r);
      ghost var a, b, c := PutReceipt(r), PutFence(r), PutCurrent(r);
      UpToThree(Perform, d, a, b, c);
      UpToThree(Perform, d, a, c, c);
      UpToThree(Perform, d, b, c, c);
      UpToThree(Perform, d, c, c, c);
      assert [a] + [c] == [a, c] && [a] + [b, c] == [a, b, c] && [] + [c] == [c] && [] + [b, c] == [b, c];
      if r.state.Terminal? {
        var id := r.assignment.jobId;
        if id in receipts {
          if receipts[id] != r { return false; }
        } else {
          WriteReceipt(r);
        }
        if r.outcome.value.status.ReconciliationRequired? {
          var previous := LoadFence();
          if previous.Broken? || (previous.Closed? && previous.record.assignment != r.assignment) { return false; }
          WriteFence(r);
        }
      }
      WriteCurrent(r);
      ok := true;
    }

    /** The record to go on with: the receipt when there is one, whose fence is restored first. */
    method LoadJournal() returns (ok: bool, r: Option<Record>)
      requires forall id | id in receipts :: ValidRecord(receipts[id])
      modifies this
      ensures var d := old(Value());
              match Recorded(d)
              case None => ok && r.None? && Value() == d && states == old(states)
              case Some(found) =>
                if !ReceiptAgrees(d, found) then !ok && Value() == d && states == old(states)
                else
                  var plan := LoadPlan(d, found);
                  && ok == !plan.refused && (ok ==> r == Some(Resumed(d, found)))
                  && Value() == PerformAll(Perform, d, plan.writes) && states == old(states) + Stages(Perform, d, plan.writes)
    {
      r := None;
      if current.None? { return true, None; }
      var id := current.value.assignment.jobId;
      if id !in receipts { return true, current; }
      var receipt := receipts[id];
      if receipt.assignment != current.value.assignment || !receipt.state.Terminal? { return false, None; }
      ok := true;
      if receipt.outcome.value.status.ReconciliationRequired? {
        ok := SaveJournal(receipt);
      }
      r := Some(receipt);
    }

    /** Stores a release that matches the closed fence; any other release changes nothing, and one that contradicts the disk is refused. */
    method ReleaseFence(jobId: string, planDigest: string) returns (ok: bool)
      modifies this
      ensures ok <==> if jobId in old(releases) then old(releases)[jobId] == planDigest else !old(FenceOf(Value())).Broken?
      ensures states == if Value() == old(Value()) then old(states) else old(states) + [Value()]
      ensures Value() == AfterRelease(old(Value()), jobId, planDigest)
      ensures old(FenceOf(Value())).Closed? && Value() != old(Value()) ==> ReleaseMatches(old(FenceOf(Value())).record, jobId, planDigest)
    {
      if jobId in releases { return releases[jobId] == planDigest; }
      var f := LoadFence();
      if f.Broken? { return false; }
      if f.Closed? && ReleaseMatches(f.record, jobId, planDigest) {
        releases := releases[jobId := planDigest];
        states := states + [Value()];
      }
      ok := true;
    }
  }

  /**
   A reconciliation that was saved closes the fence; the release with its job and plan opens it, and no other release does.
   */
  lemma FenceFollowsRecord(d: Disk, r: Record, jobId: string, planDigest: string)
    requires NeedsReconciliation(r) && !PlanOf(d, r).refused && r.assignment.jobId !in d.releases
    ensures var saved := PerformAll(Perform, d, PlanOf(d, r).writes);
            && FenceOf(saved) == Closed(r)
            && FenceOf(AfterRelease(saved, r.assignment.jobId, r.assignment.planDigest)) == Open
            && (jobId != r.assignment.jobId || planDigest != r.assignment.planDigest ==> FenceOf(AfterRelease(saved, jobId, planDigest)) == Closed(r))
  {
    UpToThree(Perform, d, PutReceipt(r), PutFence(r), PutCurrent(r));
    UpToThree(Perform, d, PutFence(r), PutCurrent(r), PutCurrent(r));
    assert [PutReceipt(r)] + [PutFence(r), PutCurrent(r)] == [PutReceipt(r), PutFence(r), PutCurrent(r)];
    assert [] + [PutFence(r), PutCurrent(r)] == [PutFence(r), PutCurrent(r)];
  }

  function Recorded(d: Disk): Option<Record> { d.current }

  predicate ReceiptAgrees(d: Disk, found: Record) {
    var id := found.assignment.jobId;
    id in d.receipts ==> d.receipts[id].assignment == found.assignment && d.receipts[id].state.Terminal?
  }

  function Resumed(d: Disk, found: Record): Record {
    if found.assignment.jobId in d.receipts then d.receipts[found.assignment.jobId] else found
  }

  function LoadPlan(d: Disk, found: Record): Plan {
    var r := Resumed(d, found);
    if found.assignment.jobId in d.receipts && NeedsReconciliation(r) then PlanOf(d, r) else Plan([], false)
  }
}
