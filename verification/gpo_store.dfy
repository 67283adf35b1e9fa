/**
 The protected files behind the GPO journal: the current record, one immutable
 receipt for each job, and the approvals, each of which is used up by moving
 its file. Files are written and moved atomically; `states` keeps the disk
 after every single change, so that a crash inside an operation leaves one of
 them.
 */
module GpoStore {
  import opened Wrappers
  import opened AtomicWrites
  import opened GpoRecord

  /** The approval file of a job: the administrator's for the first schema, the portal's for later ones. */
  datatype ApprovalFile = LocalFile(jobId: string) | PortalFile(jobId: string)

  /** What an approval file says. */
  datatype ApprovalText =
    | LocalText(job: Job, deviceUri: string)
    | PortalText(job: Job, deviceUri: string, approval: Approval, deadline: nat)

  /** `consumed` holds the names an approval was moved to. */
  datatype Disk = Disk(current: Option<Record>, receipts: map<string, Record>,
                       pending: map<ApprovalFile, ApprovalText>, consumed: set<ApprovalFile>, released: set<string>)

  datatype Write = PutReceipt(record: Record) | PutCurrent(record: Record)

  function Perform(d: Disk, w: Write): Disk {
    match w
    case PutReceipt(r) => d.(receipts := d.receipts[r.assignment.jobId := r])
    case PutCurrent(r) => d.(current := Some(r))
  }

  /** The writes a save makes, and whether it refuses instead. */
  datatype Plan = Plan(writes: seq<Write>, refused: bool)

  function PlanOf(d: Disk, r: Record): Plan {
    var id := r.assignment.jobId;
    if !Completed(r.state) then Plan([PutCurrent(r)], false)
    else if id !in d.receipts then Plan([PutReceipt(r), PutCurrent(r)], false)
    else if d.receipts[id] == r then Plan([PutCurrent(r)], false)
    else Plan([], true)
  }

  /** A receipt beside the current record belongs to the same job and is complete. */
  predicate ReceiptAgrees(d: Disk, found: Record) {
    var id := found.assignment.jobId;
    id in d.receipts ==> d.receipts[id].assignment == found.assignment && d.receipts[id].deviceUri == found.deviceUri
                         && Completed(d.receipts[id].state)
  }

  function Resumed(d: Disk, found: Record): Record {
    if found.assignment.jobId in d.receipts then d.receipts[found.assignment.jobId] else found
  }

  // ----- Approvals -----

  function FileOf(j: Job): ApprovalFile {
    if j.schema == 1 then LocalFile(j.jobId) else PortalFile(j.jobId)
  }

  /** The one text that approves this record, if it is in a state that can be approved. */
  function TextFor(r: Record): Option<ApprovalText> {
    if r.assignment.schema == 1 then Some(LocalText(r.assignment, r.deviceUri))
    else if 2 <= r.assignment.schema <= 4 && !Inspection(r.assignment) && r.state.Granted? && r.deadline != 0 && r.guid == ""
            && r.result.None? && r.approval.Some? && ValidApproval(r.approval.value, r.assignment, r.deviceUri)
    then Some(PortalText(r.assignment, r.deviceUri, r.approval.value, r.deadline))
    else None
  }

  predicate Approved(d: Disk, r: Record) {
    var file := FileOf(r.assignment);
    TextFor(r).Some? && file !in d.consumed && file in d.pending && d.pending[file] == TextFor(r).value
  }

  /** An approval is written once, and not again after it was used. */
  function AfterApproval(d: Disk, r: Record): Disk {
    var file := FileOf(r.assignment);
    if TextFor(r).None? || file in d.consumed || file in d.pending then d
    else d.(pending := d.pending[file := TextFor(r).value])
  }

  function AfterConsumption(d: Disk, r: Record): Disk {
    if Approved(d, r) then d.(pending := d.pending - {FileOf(r.assignment)}, consumed := d.consumed + {FileOf(r.assignment)}) else d
  }

  /** What may happen to the disk besides consumptions: approvals, journal writes and releases, in any order. */
  datatype Change = Approve(record: Record) | Use(record: Record) | Journal(write: Write) | Free(jobId: string)

  function Changed(d: Disk, c: Change): Disk {
    match c
    case Approve(r) => AfterApproval(d, r)
    case Use(r) => AfterConsumption(d, r)
    case Journal(w) => Perform(d, w)
    case Free(id) => d.(released := d.released + {id})
  }

  function ChangedAll(d: Disk, cs: seq<Change>): Disk
    decreases |cs|
  {
    if cs == [] then d else ChangedAll(Changed(d, cs[0]), cs[1..])
  }

  lemma {:induction false} UsedStaysUsed(d: Disk, cs: seq<Change>, file: ApprovalFile)
    requires file in d.consumed
    ensures file in ChangedAll(d, cs).consumed
    decreases |cs|
  {
    hide Approved, TextFor;
    if cs != [] { UsedStaysUsed(Changed(d, cs[0]), cs[1..], file); }
  }

  /** Once used, an approval approves nothing again, whatever happens to the disk afterwards. */
  lemma ConsumedForGood(d: Disk, r: Record, cs: seq<Change>, later: Record)
    requires Approved(d, r) && FileOf(later.assignment) == FileOf(r.assignment)
    ensures !Approved(ChangedAll(AfterConsumption(d, r), cs), later)
  {
    hide TextFor, ChangedAll;
    UsedStaysUsed(AfterConsumption(d, r), cs, FileOf(r.assignment));
  }

  /** An approval names one assignment and enrollment, and the portal's one claim: any two records it approves agree on them. */
  lemma ApprovalNamesOneRecord(d: Disk, r: Record, s: Record)
    requires Approved(d, r) && Approved(d, s) && FileOf(r.assignment) == FileOf(s.assignment)
    ensures r.assignment == s.assignment && r.deviceUri == s.deviceUri
    ensures r.assignment.schema != 1 ==> r == s
  {
    hide ValidApproval;
  }

  class Store {
    var current: Option<Record>
    var receipts: map<string, Record>
    var pending: map<ApprovalFile, ApprovalText>
    var consumed: set<ApprovalFile>
    var released: set<string>
    ghost var states: seq<Disk>

    constructor (d: Disk)
      ensures Value() == d && states == []
    {
      current, receipts, pending, consumed, released := d.current, d.receipts, d.pending, d.consumed, d.released;
      states := [];
    }

    function Value(): Disk
      reads this
    {
      Disk(current, receipts, pending, consumed, released)
    }

    method WriteReceipt(r: Record)
      modifies this
      ensures Value() == Perform(old(Value()), PutReceipt(r)) && states == old(states) + [Value()]
    {
      receipts := receipts[r.assignment.jobId := r];
      states := states + [Value()];
    }

    method WriteCurrent(r: Record)
      modifies this
      ensures Value() == Perform(old(Value()), PutCurrent(r)) && states == old(states) + [Value()]
    {
      current := Some(r);
      states := states + [Value()];
    }

    /** Checks that the record reads back, writes the receipt of a completed one once, then replaces the current record. */
    method SaveJournal(r: Record) returns (ok: bool)
      modifies this
      ensures var plan := if ValidRecord(r) then PlanOf(old(Value()), r) else Plan([], true);
              && ok == !plan.refused
              && Value() == PerformAll(Perform, old(Value()), plan.writes)
              && states == old(states) + Stages(Perform, old(Value()), plan.writes)
    {
      hide ParseJournal, Document, ValidRecord;
      UpToThree(Perform, Value(), PutReceipt(r), PutCurrent(r), PutCurrent(r));
      UpToThree(Perform, Value(), PutCurrent(r), PutCurrent(r), PutCurrent(r));
      ParseAfterDocument(r);
      var document := Document(r);
      if document.None? || ParseJournal(document.value).None? { return false; }
      if Completed(r.state) {
        if r.assignment.jobId in receipts {
          if receipts[r.assignment.jobId] != r { return false; }
        } else {
          WriteReceipt(r);
        }
      }
      WriteCurrent(r);
      ok := true;
    }

    /** The record to go on with: the receipt when the job has one. */
    method LoadJournal() returns (ok: bool, r: Option<Record>)
      ensures ok == (current.Some? ==> ReceiptAgrees(Value(), current.value))
      ensures ok && current.Some? ==> r == Some(Resumed(Value(), current.value))
      ensures !ok || current.None? ==> r == None
    {
      if current.None? { return true, None; }
      var id := current.value.assignment.jobId;
      if id in receipts {
        var completed := receipts[id];
        if completed.assignment != current.value.assignment || completed.deviceUri != current.value.deviceUri || !Completed(completed.state) {
          return false, None;
        }
        return true, Some(completed);
      }
      r := current;
      ok := true;
    }

    /** `inForce`: the grant, the approval's period and the enrollment are current. */
    method HasApproval(r: Record, inForce: bool) returns (b: bool)
      ensures b == (inForce && Approved(Value(), r))
    {
      hide ValidApproval;
      var file := FileOf(r.assignment);
      if !inForce || TextFor(r).None? || file in consumed { return false; }
      b := file in pending && pending[file] == TextFor(r).value;
    }

    method SaveApproval(r: Record, inForce: bool) returns (ok: bool)
      modifies this
      ensures Value() == if inForce then AfterApproval(old(Value()), r) else old(Value())
      ensures states == if Value() == old(Value()) then old(states) else old(states) + [Value()]
      ensures ok == (inForce && old(TextFor(r).Some? && FileOf(r.assignment) !in consumed && FileOf(r.assignment) !in pending))
      ensures ok ==> Approved(Value(), r)
    {
      hide ValidApproval;
      var file := FileOf(r.assignment);
      var text := TextFor(r);
      if !inForce || text.None? || file in consumed || file in pending { return false; }
      pending := pending[file := text.value];
      states := states + [Value()];
      ok := true;
    }

    /** Moves the approval to its consumed name, which must be free; it succeeds at most once for a file. */
    method Consume(r: Record, inForce: bool) returns (ok: bool)
      modifies this
      ensures ok == (inForce && old(Approved(Value(), r)))
      ensures Value() == if ok then AfterConsumption(old(Value()), r) else old(Value())
      ensures states == if ok then old(states) + [Value()] else old(states)
    {
      hide ValidApproval;
      ok := HasApproval(r, inForce);
      if ok {
        var file := FileOf(r.assignment);
        pending, consumed := pending - {file}, consumed + {file};
        states := states + [Value()];
      }
    }
  }
}
