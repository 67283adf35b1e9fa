/**
 Every run of the GPO worker: loads, offers, claims, approvals, executions,
 releases and crashes between any two changes on disk. A process does what
 `Allowed` permits, which is what the methods of `GpoManaged` and `GpoPilot`
 are shown to do. Each load starts a new attempt.
 */
module GpoProtocol {
  import opened Wrappers
  import opened GpoRecord
  import opened GpoProtocolSteps
  import opened GpoStore

  datatype Worker =
    | Down
    | Idle
    | Up(process: Process)
    | Saving(target: Process, pending: seq<Write>)

  datatype Intent = Intent(job: Job, attempt: nat)

  datatype Made = Made(intent: Intent, call: Call)

  /**
   `calls` are the directory calls in order; `consumer` says which attempt used each approval, and
   `intents` which attempt put a job's creating record on disk.
   */
  datatype World = World(disk: Disk, worker: Worker, attempt: nat, calls: seq<Made>,
                         consumer: map<ApprovalFile, nat>, intents: map<string, Intent>)

  datatype Step =
    | Crash
    | Load
    | Offer(job: Job, deviceUri: string)
    | Save(record: Record)
    | WriteNext
    | ApproveLocally(job: Job, deviceUri: string)
    | SaveApproval
    | Consume
    | Mutate(call: Call)
    | Hear(event: Event)
    | Release

  function Fresh(job: Job, uri: string): Record { Record(job, uri, Prepared, "", 0, None, None) }

  /** A new job is taken by a worker with no record, a reported one, or a released reconciliation. */
  predicate MayTake(w: World, job: Job, uri: string) {
    && ValidRecord(Fresh(job, uri))
    && (w.worker.Idle?
        || (w.worker.Up? && w.worker.process.view.assignment != job
            && (w.worker.process.view.state.Terminal?
                || (w.worker.process.view.state.Reconciliation? && w.worker.process.view.assignment.jobId in w.disk.released))))
  }

  function AfterLoad(w: World): World {
    match w.disk.current
    case None => w.(worker := Idle, attempt := w.attempt + 1)
    case Some(found) =>
      if !ReceiptAgrees(w.disk, found) then w
      else w.(worker := Up(Loaded(Resumed(w.disk, found))), attempt := w.attempt + 1)
  }

  function AfterSave(w: World, r: Record): World
    requires w.worker.Up?
  {
    var plan := PlanOf(w.disk, r);
    w.(worker := if plan.refused then Down else Saving(After(w.worker.process, Saved(r)), plan.writes))
  }

  function AfterWrite(w: World): World
    requires w.worker.Saving? && w.worker.pending != []
  {
    var first, rest := w.worker.pending[0], w.worker.pending[1..];
    var r := first.record;
    w.(disk := Perform(w.disk, first),
       worker := if rest == [] then Up(w.worker.target) else w.worker.(pending := rest),
       intents := if first.PutCurrent? && r.state.Creating?
                  then w.intents[r.assignment.jobId := Intent(r.assignment, w.attempt)] else w.intents)
  }

  function AfterConsume(w: World): World
    requires w.worker.Up?
  {
    var p := w.worker.process;
    w.(disk := AfterConsumption(w.disk, p.view), worker := Up(After(p, Consumed)),
       consumer := w.consumer[FileOf(p.view.assignment) := w.attempt])
  }

  function Next(w: World, step: Step): World {
    match step
    case Crash => w.(worker := Down)
    case Load => if w.worker.Down? then AfterLoad(w) else w
    case Offer(job, uri) =>
      if MayTake(w, job, uri)
      then w.(worker := Saving(Claiming(Fresh(job, uri)), [PutCurrent(Fresh(job, uri))])) else w
    case Save(r) => if w.worker.Up? && AllowedSave(w.worker.process, r) then AfterSave(w, r) else w
    case WriteNext => if w.worker.Saving? && w.worker.pending != [] then AfterWrite(w) else w
    case ApproveLocally(job, uri) => if job.schema == 1 then w.(disk := AfterApproval(w.disk, Fresh(job, uri))) else w
    case SaveApproval => if w.worker.Up? then w.(disk := AfterApproval(w.disk, w.worker.process.view)) else w
    case Consume =>
      if w.worker.Up? && Allowed(w.worker.process, Consumed) && Approved(w.disk, w.worker.process.view) then AfterConsume(w) else w
    case Mutate(call) =>
      if w.worker.Up? && Allowed(w.worker.process, Mutated(call))
      then w.(worker := Up(After(w.worker.process, Mutated(call))),
              calls := w.calls + [Made(Intent(w.worker.process.view.assignment, w.attempt), call)])
      else w
    case Hear(e) =>
      if w.worker.Up? && !e.Saved? && !e.Consumed? && !e.Mutated? && Allowed(w.worker.process, e)
      then w.(worker := Up(After(w.worker.process, e))) else w
    case Release =>
      if w.worker.Up? && w.worker.process.view.state.Reconciliation?
      then w.(disk := w.disk.(released := w.disk.released + {w.worker.process.view.assignment.jobId})) else w
  }

  function Run(w: World, steps: seq<Step>): World
    decreases |steps|
  {
    if steps == [] then w else Run(Next(w, steps[0]), steps[1..])
  }

  // ----- What always holds -----

  ghost predicate Owns(d: Disk, id: string) { d.current.Some? && d.current.value.assignment.jobId == id }

  ghost predicate DiskHolds(d: Disk) {
    && (forall id | id in d.receipts ::
          d.receipts[id].assignment.jobId == id && Completed(d.receipts[id].state) && ValidRecord(d.receipts[id]))
    && (d.current.Some? ==> ValidRecord(d.current.value))
    && (d.current.Some? && Completed(d.current.value.state) ==>
          d.current.value.assignment.jobId in d.receipts && d.receipts[d.current.value.assignment.jobId] == d.current.value)
    && (d.current.None? ==> d.receipts == map[])
    && (forall id | id in d.released :: id in d.receipts)
  }

  ghost predicate Unharmed(r: Record) { HasStatus(r, FailedStatus) || HasStatus(r, Inspected) }

  /** A job whose intent was saved is settled otherwise than as failed, or its record on disk still shows the writing. */
  ghost predicate Accounted(d: Disk, id: string) {
    if id in d.receipts then !Unharmed(d.receipts[id])
    else Owns(d, id) && Writing(d.current.value.state)
  }

  ghost predicate IsIntent(w: World, i: Intent) {
    && i.job.jobId in w.intents && w.intents[i.job.jobId] == i
  }

  ghost predicate Backed(w: World, i: Intent) {
    FileOf(i.job) in w.consumer && w.consumer[FileOf(i.job)] == i.attempt
  }

  ghost predicate IntentsHold(w: World) {
    && (forall id | id in w.intents :: w.intents[id].job.jobId == id && Backed(w, w.intents[id]) && Accounted(w.disk, id))
    && (forall k | 0 <= k < |w.calls| :: IsIntent(w, w.calls[k].intent))
    && w.consumer.Keys == w.disk.consumed
  }

  /** What holds of a process, saving or not. */
  ghost predicate ProcessHolds(w: World, p: Process) {
    && ValidRecord(p.view)
    && (p.consumed ==> Backed(w, Intent(p.view.assignment, w.attempt)))
    && (p.intent ==> p.consumed)
    && (p.loaded ==> Completed(p.view.state) || p.view.assignment.jobId !in w.disk.receipts)
    && (!p.loaded && p.view.assignment.jobId in w.disk.receipts && !Completed(p.view.state) ==>
          !p.consumed && !p.intent && !Writing(p.view.state))
  }

  ghost predicate UpHolds(w: World, p: Process) {
    var id := p.view.assignment.jobId;
    && ProcessHolds(w, p)
    && (p.intent ==> IsIntent(w, Intent(p.view.assignment, w.attempt)))
    && (if Completed(p.view.state) then id in w.disk.receipts && w.disk.receipts[id] == p.view && Owns(w.disk, id)
        else w.disk.current == Some(p.view))
  }

  ghost predicate SettledOthers(w: World, id: string) {
    forall x | x in w.intents && x != id :: x in w.disk.receipts
  }

  ghost predicate SavingHolds(w: World, p: Process, ws: seq<Write>) {
    var r := p.view;
    var id := r.assignment.jobId;
    && ProcessHolds(w, p)
    && (p.intent && !r.state.Creating? ==> IsIntent(w, Intent(r.assignment, w.attempt)))
    && SettledOthers(w, id)
    && if !Completed(r.state) then
         && ws == [PutCurrent(r)]
         && (r.state.Creating? ==> p.consumed && id !in w.intents && id !in w.disk.receipts)
         && (!Writing(r.state) ==> (id in w.intents ==> id in w.disk.receipts))
       else
         && Owns(w.disk, id)
         && if ws == [PutReceipt(r), PutCurrent(r)] then id !in w.disk.receipts && (id in w.intents ==> !Unharmed(r))
            else ws == [PutCurrent(r)] && id in w.disk.receipts && w.disk.receipts[id] == r
  }

  ghost predicate WorkerHolds(w: World) {
    match w.worker
    case Down => true
    case Idle => w.disk.current.None?
    case Up(p) => UpHolds(w, p)
    case Saving(p, ws) => SavingHolds(w, p, ws)
  }

  ghost predicate Invariant(w: World) {
    DiskHolds(w.disk) && IntentsHold(w) && WorkerHolds(w)
  }

  lemma LoadHolds(w: World)
    requires Invariant(w) && w.worker.Down?
    ensures Invariant(AfterLoad(w))
  {
    hide ValidRecord, HasStatus;
  }

  lemma OfferHolds(w: World, job: Job, uri: string)
    requires Invariant(w) && MayTake(w, job, uri)
    ensures Invariant(Next(w, Offer(job, uri)))
  {
    hide ValidRecord, HasStatus;
  }

  /** What may be saved keeps what is known about the process that saves it. */
  lemma SavedProcessHolds(w: World, r: Record)
    requires Invariant(w) && w.worker.Up? && AllowedSave(w.worker.process, r)
    ensures ProcessHolds(w, After(w.worker.process, Saved(r))) && SettledOthers(w, r.assignment.jobId)
  {
    hide ValidRecord, HasStatus, PreparedOnly;
  }

  lemma SaveOngoingHolds(w: World, r: Record)
    requires Invariant(w) && w.worker.Up? && AllowedSave(w.worker.process, r) && !Completed(r.state)
    ensures Invariant(AfterSave(w, r))
  {
    hide ValidRecord, HasStatus, PreparedOnly;
    SavedProcessHolds(w, r);
  }

  lemma CompletedIsUnharmedOnlyBeforeIntent(w: World, r: Record)
    requires Invariant(w) && w.worker.Up? && AllowedSave(w.worker.process, r) && Completed(r.state)
    requires r.assignment.jobId !in w.disk.receipts && r.assignment.jobId in w.intents
    ensures !Unharmed(r)
  {
    hide ValidJob, ValidApproval, ValidManagedResult, UsableGpo, Clean;
  }

  lemma SaveCompletedHolds(w: World, r: Record)
    requires Invariant(w) && w.worker.Up? && AllowedSave(w.worker.process, r) && Completed(r.state)
    ensures Invariant(AfterSave(w, r))
  {
    hide ValidRecord, HasStatus, PreparedOnly, Unharmed;
    SavedProcessHolds(w, r);
    var id := r.assignment.jobId;
    if id !in w.disk.receipts && id in w.intents { CompletedIsUnharmedOnlyBeforeIntent(w, r); }
  }

  lemma PutReceiptDisk(w: World)
    requires Invariant(w) && w.worker.Saving? && w.worker.pending != [] && w.worker.pending[0].PutReceipt?
    ensures DiskHolds(AfterWrite(w).disk)
  {
    hide ValidRecord, HasStatus;
  }

  lemma PutReceiptIntents(w: World)
    requires Invariant(w) && w.worker.Saving? && w.worker.pending != [] && w.worker.pending[0].PutReceipt?
    ensures IntentsHold(AfterWrite(w))
  {
    hide ValidRecord, HasStatus;
  }

  lemma PutReceiptWorker(w: World)
    requires Invariant(w) && w.worker.Saving? && w.worker.pending != [] && w.worker.pending[0].PutReceipt?
    ensures WorkerHolds(AfterWrite(w))
  {
    hide ValidRecord, HasStatus;
  }

  lemma PutReceiptHolds(w: World)
    requires Invariant(w) && w.worker.Saving? && w.worker.pending != [] && w.worker.pending[0].PutReceipt?
    ensures Invariant(AfterWrite(w))
  {
    hide ValidRecord, HasStatus, DiskHolds, IntentsHold, WorkerHolds, AfterWrite;
    PutReceiptDisk(w);
    PutReceiptIntents(w);
    PutReceiptWorker(w);
  }

  lemma PutCurrentDisk(w: World)
    requires Invariant(w) && w.worker.Saving? && w.worker.pending != [] && w.worker.pending[0].PutCurrent?
    ensures DiskHolds(AfterWrite(w).disk)
  {
    hide ValidRecord, HasStatus;
  }

  lemma PutCurrentIntent(w: World, id: string)
    requires Invariant(w) && w.worker.Saving? && w.worker.pending != [] && w.worker.pending[0].PutCurrent?
    requires id in AfterWrite(w).intents
    ensures var n := AfterWrite(w); n.intents[id].job.jobId == id && Backed(n, n.intents[id]) && Accounted(n.disk, id)
  {
    hide ValidRecord, HasStatus, DiskHolds, Unharmed;
  }

  lemma PutCurrentIntents(w: World)
    requires Invariant(w) && w.worker.Saving? && w.worker.pending != [] && w.worker.pending[0].PutCurrent?
    ensures IntentsHold(AfterWrite(w))
  {
    hide ValidRecord, HasStatus, DiskHolds, Unharmed, Backed, Accounted, ProcessHolds, SettledOthers;
    var n := AfterWrite(w);
    forall id | id in n.intents ensures n.intents[id].job.jobId == id && Backed(n, n.intents[id]) && Accounted(n.disk, id) {
      PutCurrentIntent(w, id);
    }
  }

  lemma PutCurrentWorker(w: World)
    requires Invariant(w) && w.worker.Saving? && w.worker.pending != [] && w.worker.pending[0].PutCurrent?
    ensures WorkerHolds(AfterWrite(w))
  {
    hide ValidRecord, HasStatus;
  }

  lemma PutCurrentHolds(w: World)
    requires Invariant(w) && w.worker.Saving? && w.worker.pending != [] && w.worker.pending[0].PutCurrent?
    ensures Invariant(AfterWrite(w))
  {
    hide ValidRecord, HasStatus, DiskHolds, IntentsHold, WorkerHolds, AfterWrite;
    PutCurrentDisk(w);
    PutCurrentIntents(w);
    PutCurrentWorker(w);
  }

  lemma ApprovalHolds(w: World, r: Record)
    requires Invariant(w)
    ensures Invariant(w.(disk := AfterApproval(w.disk, r)))
  {
    hide ValidRecord, HasStatus, TextFor;
  }

  lemma ConsumeHolds(w: World)
    requires Invariant(w) && w.worker.Up? && Allowed(w.worker.process, Consumed) && Approved(w.disk, w.worker.process.view)
    ensures Invariant(AfterConsume(w))
  {
    hide ValidRecord, HasStatus, TextFor;
  }

  lemma MutateHolds(w: World, call: Call)
    requires Invariant(w)
    ensures Invariant(Next(w, Mutate(call)))
  {
    hide ValidRecord, HasStatus;
  }

  lemma HearHolds(w: World, e: Event)
    requires Invariant(w)
    ensures Invariant(Next(w, Step.Hear(e)))
  {
    hide ValidRecord, HasStatus, GpoProtocolSteps.Hear, AllowedSave;
  }

  lemma ReleaseHolds(w: World)
    requires Invariant(w)
    ensures Invariant(Next(w, Release))
  {
    hide ValidRecord, HasStatus;
  }

  lemma CrashHolds(w: World)
    requires Invariant(w)
    ensures Invariant(Next(w, Crash))
  {
    hide ValidRecord, HasStatus;
  }

  lemma StepHolds(w: World, step: Step)
    requires Invariant(w)
    ensures Invariant(Next(w, step))
  {
    hide Invariant, AllowedSave, Allowed, AfterSave, AfterWrite, AfterConsume, AfterLoad, MayTake, Approved, AfterApproval, ValidRecord;
    match step
    case Crash => CrashHolds(w);
    case Load => if w.worker.Down? { LoadHolds(w); }
    case Offer(job, uri) => if MayTake(w, job, uri) { OfferHolds(w, job, uri); }
    case Save(r) =>
      if w.worker.Up? && AllowedSave(w.worker.process, r) {
        if Completed(r.state) { SaveCompletedHolds(w, r); } else { SaveOngoingHolds(w, r); }
      }
    case WriteNext =>
      if w.worker.Saving? && w.worker.pending != [] {
        if w.worker.pending[0].PutReceipt? { PutReceiptHolds(w); } else { PutCurrentHolds(w); }
      }
    case ApproveLocally(job, uri) => ApprovalHolds(w, Fresh(job, uri));
    case SaveApproval => if w.worker.Up? { ApprovalHolds(w, w.worker.process.view); }
    case Consume =>
      if w.worker.Up? && Allowed(w.worker.process, Consumed) && Approved(w.disk, w.worker.process.view) { ConsumeHolds(w); }
    case Mutate(call) => MutateHolds(w, call);
    case Hear(e) => HearHolds(w, e);
    case Release => ReleaseHolds(w);
  }

  const BLANK := World(Disk(None, map[], map[], {}, {}), Down, 0, [], map[], map[])

  lemma BlankHolds()
    ensures Invariant(BLANK)
  {
  }

  lemma {:induction false} RunHolds(w: World, steps: seq<Step>)
    requires Invariant(w)
    ensures Invariant(Run(w, steps))
    decreases |steps|
  {
    hide Invariant, Next;
    if steps != [] {
      StepHolds(w, steps[0]);
      RunHolds(Next(w, steps[0]), steps[1..]);
    }
  }

  // ----- Main results, over every run from an empty disk -----

  /**
   All directory calls for a job, in any run, were made by one attempt, for one assignment, and that attempt
   used up the job's approval.
   */
  lemma CalledByOneAttempt(steps: seq<Step>)
    ensures var w := Run(BLANK, steps);
            && (forall i, j | 0 <= i < |w.calls| && 0 <= j < |w.calls| && w.calls[i].intent.job.jobId == w.calls[j].intent.job.jobId ::
                  w.calls[i].intent == w.calls[j].intent)
            && (forall i | 0 <= i < |w.calls| :: var made := w.calls[i].intent;
                  FileOf(made.job) in w.disk.consumed && FileOf(made.job) in w.consumer && w.consumer[FileOf(made.job)] == made.attempt)
  {
    hide Run;
    BlankHolds();
    RunHolds(BLANK, steps);
    var w := Run(BLANK, steps);
    forall i | 0 <= i < |w.calls|
      ensures IsIntent(w, w.calls[i].intent) && Backed(w, w.calls[i].intent)
    {
      assert IsIntent(w, w.calls[i].intent);
    }
  }

  /** A receipt that says failed, or inspected, means that no directory call was ever made for the job. */
  lemma FailedMeansUntouched(steps: seq<Step>, id: string)
    requires var w := Run(BLANK, steps);
             id in w.disk.receipts && (HasStatus(w.disk.receipts[id], FailedStatus) || HasStatus(w.disk.receipts[id], Inspected))
    ensures var w := Run(BLANK, steps); forall i | 0 <= i < |w.calls| :: w.calls[i].intent.job.jobId != id
  {
    hide Run;
    BlankHolds();
    RunHolds(BLANK, steps);
    var w := Run(BLANK, steps);
    forall i | 0 <= i < |w.calls| ensures w.calls[i].intent.job.jobId != id {
      assert IsIntent(w, w.calls[i].intent);
    }
  }

  /** A job that reached the directory has a receipt of success or of reconciliation, or its writing record is still on disk. */
  lemma CalledIsSettled(steps: seq<Step>, i: nat)
    requires i < |Run(BLANK, steps).calls|
    ensures var w := Run(BLANK, steps); var id := w.calls[i].intent.job.jobId;
            if id in w.disk.receipts
            then w.disk.receipts[id].result.Some?
                 && (Success(w.disk.receipts[id].result.value.status) || w.disk.receipts[id].result.value.status.RequiresReconciliation?)
            else Owns(w.disk, id) && Writing(w.disk.current.value.state)
  {
    BlankHolds();
    RunHolds(BLANK, steps);
    var w := Run(BLANK, steps);
    assert IsIntent(w, w.calls[i].intent);
    hide Run, ValidResult, ValidJob;
  }

  lemma CallNeedsIntent(w: World, step: Step)
    requires Invariant(w) && Next(w, step).calls != w.calls
    ensures w.worker.Up?
    ensures var r := w.worker.process.view; var intent := Intent(r.assignment, w.attempt);
            && (exists call :: Next(w, step).calls == w.calls + [Made(intent, call)])
            && w.disk.current == Some(r) && Writing(r.state) && r.assignment.jobId !in w.disk.receipts
            && FileOf(r.assignment) in w.disk.consumed && Backed(w, intent) && IsIntent(w, intent)
  {
    hide ValidRecord;
  }

  /** When a directory call is made, the approval is already used up and the writing record already on disk, both by this attempt. */
  lemma CallFollowsIntent(steps: seq<Step>, step: Step)
    requires Next(Run(BLANK, steps), step).calls != Run(BLANK, steps).calls
    ensures var w := Run(BLANK, steps);
            && w.worker.Up?
            && var r := w.worker.process.view; var intent := Intent(r.assignment, w.attempt);
            && (exists call :: Next(w, step).calls == w.calls + [Made(intent, call)])
            && w.disk.current == Some(r) && Writing(r.state) && r.assignment.jobId !in w.disk.receipts
            && FileOf(r.assignment) in w.disk.consumed && Backed(w, intent) && IsIntent(w, intent)
  {
    hide Invariant, Next, Run;
    BlankHolds();
    RunHolds(BLANK, steps);
    CallNeedsIntent(Run(BLANK, steps), step);
  }

  lemma StepKeepsConsumers(w: World, step: Step)
    requires Invariant(w)
    ensures forall file | file in w.consumer :: file in Next(w, step).consumer && Next(w, step).consumer[file] == w.consumer[file]
  {
    hide ValidRecord, AllowedSave;
  }

  lemma {:induction false} RunKeepsConsumers(w: World, steps: seq<Step>)
    requires Invariant(w)
    ensures forall file | file in w.consumer :: file in Run(w, steps).consumer && Run(w, steps).consumer[file] == w.consumer[file]
    decreases |steps|
  {
    hide Invariant, Next;
    if steps != [] {
      StepKeepsConsumers(w, steps[0]);
      StepHolds(w, steps[0]);
      RunKeepsConsumers(Next(w, steps[0]), steps[1..]);
    }
  }

  /** An approval is used by one attempt: however the run goes on, it stays used, and by that attempt. */
  lemma ApprovalIsUsedOnce(steps: seq<Step>, more: seq<Step>, file: ApprovalFile)
    requires file in Run(BLANK, steps).disk.consumed
    ensures var w, later := Run(BLANK, steps), Run(BLANK, steps + more);
            file in w.consumer && file in later.consumer && later.consumer[file] == w.consumer[file] && file in later.disk.consumed
  {
    hide Run;
    BlankHolds();
    RunHolds(BLANK, steps);
    RunHolds(BLANK, steps + more);
    RunAppend(BLANK, steps, more);
    RunKeepsConsumers(Run(BLANK, steps), more);
  }

  lemma LostAttemptReconciles(w: World, i: nat, r: Record)
    requires Invariant(w) && i < |w.calls| && w.worker.Up? && w.calls[i].intent.attempt != w.attempt
    requires w.worker.process.view.assignment.jobId == w.calls[i].intent.job.jobId && !Completed(w.worker.process.view.state)
    requires w.calls[i].intent.job.jobId !in w.disk.receipts
    requires AllowedSave(w.worker.process, r)
    ensures r.state.Reconciliation? && HasStatus(r, RequiresReconciliation)
  {
    hide ValidJob, ValidResult;
    assert IsIntent(w, w.calls[i].intent);
  }

  /** After the attempt that wrote was lost, a later attempt can only record that reconciliation is required. */
  lemma LaterAttemptReconciles(steps: seq<Step>, i: nat, r: Record)
    requires i < |Run(BLANK, steps).calls|
    requires var w := Run(BLANK, steps);
             && w.worker.Up? && w.calls[i].intent.attempt != w.attempt && AllowedSave(w.worker.process, r)
             && w.worker.process.view.assignment.jobId == w.calls[i].intent.job.jobId && !Completed(w.worker.process.view.state)
             && w.calls[i].intent.job.jobId !in w.disk.receipts
    ensures r.state.Reconciliation? && HasStatus(r, RequiresReconciliation)
  {
    hide Invariant, Run, AllowedSave;
    BlankHolds();
    RunHolds(BLANK, steps);
    LostAttemptReconciles(Run(BLANK, steps), i, r);
  }

  lemma WriteKeepsReceipts(w: World)
    requires WorkerHolds(w) && w.worker.Saving? && w.worker.pending != []
    ensures forall id | id in w.disk.receipts :: id in AfterWrite(w).disk.receipts && AfterWrite(w).disk.receipts[id] == w.disk.receipts[id]
  {
    hide ProcessHolds, SettledOthers, Unharmed;
  }

  lemma StepKeepsReceipts(w: World, step: Step)
    requires Invariant(w)
    ensures forall id | id in w.disk.receipts :: id in Next(w, step).disk.receipts && Next(w, step).disk.receipts[id] == w.disk.receipts[id]
  {
    hide DiskHolds, IntentsHold, WorkerHolds, ValidRecord, AllowedSave, AfterWrite, PlanOf, TextFor, Approved;
    if step.WriteNext? && w.worker.Saving? && w.worker.pending != [] { WriteKeepsReceipts(w); }
  }

  lemma {:induction false} RunKeepsReceipts(w: World, steps: seq<Step>)
    requires Invariant(w)
    ensures forall id | id in w.disk.receipts :: id in Run(w, steps).disk.receipts && Run(w, steps).disk.receipts[id] == w.disk.receipts[id]
    decreases |steps|
  {
    hide Invariant, Next;
    if steps != [] {
      StepKeepsReceipts(w, steps[0]);
      StepHolds(w, steps[0]);
      RunKeepsReceipts(Next(w, steps[0]), steps[1..]);
    }
  }

  lemma LoadReturnsReceipt(w: World, id: string)
    requires Invariant(w) && w.worker.Down? && Owns(w.disk, id) && id in w.disk.receipts
    ensures Next(w, Load) == w || Next(w, Load).worker == Up(Loaded(w.disk.receipts[id]))
  {
    hide ValidRecord;
  }

  /** However a run goes on after a receipt was written, it never changes, and every load of its job that completes returns it. */
  lemma ReceiptIsFinal(steps: seq<Step>, more: seq<Step>, id: string)
    requires id in Run(BLANK, steps).disk.receipts
    ensures var receipt, later := Run(BLANK, steps).disk.receipts[id], Run(BLANK, steps + more);
            && id in later.disk.receipts && later.disk.receipts[id] == receipt
            && (later.worker.Down? && Owns(later.disk, id) ==> Next(later, Load) == later || Next(later, Load).worker == Up(Loaded(receipt)))
  {
    hide Invariant, Run, Next;
    BlankHolds();
    RunHolds(BLANK, steps);
    RunHolds(BLANK, steps + more);
    RunAppend(BLANK, steps, more);
    RunKeepsReceipts(Run(BLANK, steps), more);
    var later := Run(BLANK, steps + more);
    if later.worker.Down? && Owns(later.disk, id) { LoadReturnsReceipt(later, id); }
  }

  // ----- The methods' traces are runs of this machine -----

  lemma {:induction false} RunAppend(w: World, a: seq<Step>, b: seq<Step>)
    ensures Run(w, a + b) == Run(Run(w, a), b)
    decreases |a|
  {
    hide Next;
    if a == [] {
      assert a + b == b;
    } else {
      assert (a + b)[0] == a[0] && (a + b)[1..] == a[1..] + b;
      RunAppend(Next(w, a[0]), a[1..], b);
    }
  }

  lemma OneStep(w: World, step: Step)
    ensures Run(w, [step]) == Next(w, step)
  {
    hide Next;
    assert [step][1..] == [];
  }

  ghost predicate SameApprovals(v: World, w: World) {
    v.disk.pending == w.disk.pending && v.disk.consumed == w.disk.consumed
  }

  lemma WritesCurrentOnly(w: World)
    requires Invariant(w) && w.worker.Saving? && !Completed(w.worker.target.view.state)
    ensures w.worker.pending == [PutCurrent(w.worker.target.view)]
  {
    hide ValidRecord;
  }

  lemma {:induction false} SaveCompletes(w: World) returns (steps: seq<Step>)
    requires Invariant(w) && w.worker.Saving? && w.worker.pending != []
    ensures var n := Run(w, steps);
            && Invariant(n) && n.worker == Up(w.worker.target) && n.calls == w.calls && SameApprovals(n, w) && n.attempt == w.attempt
            && (!Completed(w.worker.target.view.state) ==> n.disk.receipts == w.disk.receipts)
    decreases |w.worker.pending|
  {
    hide Invariant, ValidRecord;
    StepHolds(w, WriteNext);
    OneStep(w, WriteNext);
    steps := [WriteNext];
    var n := Next(w, WriteNext);
    if !Completed(w.worker.target.view.state) { WritesCurrentOnly(w); }
    if !n.worker.Up? {
      var more := SaveCompletes(n);
      RunAppend(w, steps, more);
      steps := steps + more;
    }
  }

  /** The job is not settled, or this process settled it. */
  ghost predicate Unsettled(w: World) {
    w.worker.Up? && (Completed(w.worker.process.view.state) || w.worker.process.view.assignment.jobId !in w.disk.receipts)
  }

  lemma NothingAfterCompletion(p: Process, r: Record)
    requires AllowedSave(p, r)
    ensures !Completed(p.view.state) && r.assignment == p.view.assignment
  {
    hide ValidRecord;
  }

  lemma SaveIsNotRefused(w: World, r: Record)
    requires Invariant(w) && Unsettled(w) && AllowedSave(w.worker.process, r)
    ensures !PlanOf(w.disk, r).refused && PlanOf(w.disk, r).writes != []
  {
    hide ValidRecord;
  }

  lemma LoadedIsUnsettled(w: World)
    requires Invariant(w) && w.worker.Up? && (Completed(w.worker.process.view.state) || w.worker.process.loaded)
    ensures Unsettled(w)
  {
    hide ValidRecord;
  }

  /** A save is carried out in full, or refused because the job has another receipt; then the process ends. */
  lemma OneSave(w: World, r: Record) returns (saved: bool, steps: seq<Step>)
    requires Invariant(w) && w.worker.Up? && AllowedSave(w.worker.process, r)
    ensures var n := Run(w, steps);
            && Invariant(n) && n.calls == w.calls && SameApprovals(n, w) && n.attempt == w.attempt
            && (if saved then n.worker == Up(After(w.worker.process, Saved(r))) else n.worker.Down? && n.disk == w.disk && Superseded(w.disk, r))
            && (Unsettled(w) ==> saved && Unsettled(n))
  {
    hide Invariant, AllowedSave, PlanOf, ValidRecord;
    NothingAfterCompletion(w.worker.process, r);
    StepHolds(w, Save(r));
    OneStep(w, Save(r));
    steps := [Save(r)];
    saved := !PlanOf(w.disk, r).refused;
    RefusedIsSuperseded(w.disk, r);
    if Unsettled(w) { SaveIsNotRefused(w, r); }
    if saved {
      var more := SaveCompletes(Next(w, Save(r)));
      RunAppend(w, steps, more);
      steps := steps + more;
    }
  }

  /** The job has a receipt, and not this one. */
  predicate Superseded(d: Disk, r: Record) {
    Completed(r.state) && r.assignment.jobId in d.receipts && d.receipts[r.assignment.jobId] != r
  }

  lemma RefusedIsSuperseded(d: Disk, r: Record)
    ensures PlanOf(d, r).refused <==> Superseded(d, r)
    ensures !PlanOf(d, r).refused ==> PlanOf(d, r).writes != []
  {
  }

  lemma OneConsumption(w: World)
    requires Invariant(w) && w.worker.Up? && Allowed(w.worker.process, Consumed) && Approved(w.disk, w.worker.process.view)
    ensures var n := Run(w, [Step.Consume]);
            && Invariant(n) && n.worker == Up(After(w.worker.process, Consumed)) && n.calls == w.calls && n.attempt == w.attempt
            && (Unsettled(w) ==> Unsettled(n))
  {
    hide Invariant, ValidRecord, Approved;
    StepHolds(w, Step.Consume);
    OneStep(w, Step.Consume);
  }

  lemma OneHearing(w: World, e: Event)
    requires Invariant(w) && w.worker.Up? && !e.Saved? && !e.Consumed? && !e.Mutated? && Allowed(w.worker.process, e)
    ensures var n := Run(w, [Step.Hear(e)]);
            && Invariant(n) && n.worker == Up(After(w.worker.process, e)) && n.calls == w.calls && n.attempt == w.attempt
            && SameApprovals(n, w) && (Unsettled(w) ==> Unsettled(n))
  {
    hide Invariant, ValidRecord, GpoProtocolSteps.Hear;
    StepHolds(w, Step.Hear(e));
    OneStep(w, Step.Hear(e));
  }

  lemma OneCall(w: World, call: Call)
    requires Invariant(w) && w.worker.Up? && Allowed(w.worker.process, Mutated(call))
    ensures var n := Run(w, [Mutate(call)]);
            && Invariant(n) && n.worker == Up(After(w.worker.process, Mutated(call))) && n.attempt == w.attempt && (Unsettled(w) ==> Unsettled(n))
            && SameApprovals(n, w) && n.calls == w.calls + [Made(Intent(w.worker.process.view.assignment, w.attempt), call)]
  {
    hide Invariant, ValidRecord;
    StepHolds(w, Mutate(call));
    OneStep(w, Mutate(call));
  }

  /** Only the record that was loaded can be approved for use. */
  lemma {:induction false} ConsumesWhatItLoaded(p: Process, events: seq<Event>)
    requires AllowedAll(p, events)
    ensures var q := AfterAll(p, events); q.loaded && q.view.state.Granted? ==> q.view == p.view
    decreases |events|
  {
    hide ValidRecord;
    if events != [] {
      ConsumesWhatItLoaded(p, events[..|events| - 1]);
    }
  }

  /** The calls one attempt makes for its job. */
  function MadeBy(i: Intent, calls: seq<Call>): seq<Made> {
    seq(|calls|, k requires 0 <= k < |calls| => Made(i, calls[k]))
  }

  lemma NothingMade(i: Intent)
    ensures MadeBy(i, CallsIn([])) == []
  {
  }

  lemma OneCallIn(e: Event)
    ensures CallsIn([e]) == if e.Mutated? then [e.call] else []
  {
    assert [e][..0] == [];
  }

  lemma {:induction false} CallsInLast(events: seq<Event>)
    requires events != []
    ensures var last := |events| - 1; CallsIn(events) == CallsIn(events[..last]) + if events[last].Mutated? then [events[last].call] else []
  {
  }

  lemma MadeByMore(i: Intent, calls: seq<Call>, more: seq<Call>)
    ensures MadeBy(i, calls + more) == MadeBy(i, calls) + MadeBy(i, more)
  {
  }

  lemma CallsGrow(i: Intent, events: seq<Event>)
    requires events != []
    ensures var last := |events| - 1;
            MadeBy(i, CallsIn(events)) == MadeBy(i, CallsIn(events[..last])) + MadeBy(i, CallsIn([events[last]]))
  {
    hide CallsIn, MadeBy;
    var last := |events| - 1;
    CallsInLast(events);
    OneCallIn(events[last]);
    MadeByMore(i, CallsIn(events[..last]), CallsIn([events[last]]));
  }

  lemma {:induction false} SameAssignment(p: Process, events: seq<Event>)
    requires AllowedAll(p, events)
    ensures AfterAll(p, events).view.assignment == p.view.assignment
    decreases |events|
  {
    hide ValidRecord;
    if events != [] { SameAssignment(p, events[..|events| - 1]); }
  }

  lemma {:induction false} UsedUp(p: Process, events: seq<Event>)
    requires AllowedAll(p, events)
    ensures Consumed in events ==> AfterAll(p, events).consumed
    decreases |events|
  {
    hide Allowed;
    if events != [] {
      UsedUp(p, events[..|events| - 1]);
    }
  }

  /** What the machine has done of a trace: all of it, or what comes before a save that was refused. */
  ghost predicate Done(w: World, n: World, events: seq<Event>, done: nat)
    requires w.worker.Up? && done <= |events|
  {
    && Invariant(n) && n.attempt == w.attempt
    && n.calls == w.calls + MadeBy(Intent(w.worker.process.view.assignment, w.attempt), CallsIn(events[..done]))
    && (if done == |events| then n.worker == Up(AfterAll(w.worker.process, events))
        else n.worker.Down? && events[done].Saved? && Superseded(n.disk, events[done].record))
  }

  /**
   Whatever a method was shown to do, the machine does with its saves completed. A trace is cut short only where it
   would replace the receipt of its job, which a worker that loaded its record never does.
   */
  lemma {:induction false} TraceIsRun(w: World, events: seq<Event>) returns (done: nat, steps: seq<Step>)
    requires Invariant(w) && w.worker.Up? && AllowedAll(w.worker.process, events)
    requires Consumed in events ==> Approved(w.disk, w.worker.process.view)
    ensures done <= |events| && Done(w, Run(w, steps), events, done)
    ensures Unsettled(w) ==> done == |events| && Unsettled(Run(w, steps))
    ensures done == |events| && Consumed !in events ==> SameApprovals(Run(w, steps), w)
    decreases |events|
  {
    hide Invariant, Allowed, After, Next, Approved, Unsettled, Superseded, CallsIn, MadeBy;
    if events == [] {
      done, steps := 0, [];
      NothingMade(Intent(w.worker.process.view.assignment, w.attempt));
      assert Run(w, steps) == w;
    } else {
      var last := |events| - 1;
      done, steps := TraceIsRun(w, events[..last]);
      if done == last {
        assert events[..last][..done] == events[..last];
        CallsGrow(Intent(w.worker.process.view.assignment, w.attempt), events);
        var more, step := OneEvent(w, Run(w, steps), events);
        RunAppend(w, steps, step);
        steps := steps + step;
        assert events[..|events|] == events;
        if more { done := |events|; }
      } else {
        assert events[..last][..done] == events[..done] && events[..last][done] == events[done];
      }
    }
  }

  /** A worker that loads its record carries out, as a run, every trace that is allowed from it. */
  lemma LoadedTraceIsRun(w: World, events: seq<Event>) returns (steps: seq<Step>)
    requires Invariant(w) && w.worker.Down? && Next(w, Load).worker.Up? && AllowedAll(Next(w, Load).worker.process, events)
    requires Consumed in events ==> Approved(w.disk, Next(w, Load).worker.process.view)
    ensures var n := Run(w, steps);
            && Invariant(n) && n.worker == Up(AfterAll(Next(w, Load).worker.process, events)) && n.attempt == w.attempt + 1
            && n.calls == w.calls + MadeBy(Intent(Next(w, Load).worker.process.view.assignment, n.attempt), CallsIn(events))
  {
    hide Invariant, Allowed, After, Approved, Unsettled, ValidRecord, AllowedAll, AfterAll, Run;
    StepHolds(w, Load);
    OneStep(w, Load);
    var loaded := Next(w, Load);
    LoadedIsUnsettled(loaded);
    var done, more := TraceIsRun(loaded, events);
    RunAppend(w, [Load], more);
    steps := [Load] + more;
    assert events[..|events|] == events;
  }

  lemma StillApproved(v: World, w: World)
    requires SameApprovals(v, w) && v.worker.Up? && w.worker.Up? && v.worker.process.view == w.worker.process.view
    requires Approved(v.disk, v.worker.process.view)
    ensures Approved(w.disk, w.worker.process.view)
  {
    hide TextFor;
  }

  lemma MayConsume(p: Process)
    requires Allowed(p, Consumed)
    ensures p.loaded && p.view.state.Granted? && !p.consumed
  {
  }

  /** The last event of a trace, from a world where the earlier ones were done. */
  lemma OneEvent(v: World, w: World, events: seq<Event>) returns (more: bool, steps: seq<Step>)
    requires events != [] && v.worker.Up? && AllowedAll(v.worker.process, events)
    requires Consumed in events ==> Approved(v.disk, v.worker.process.view)
    requires var front := events[..|events| - 1];
             Invariant(w) && w.attempt == v.attempt && w.worker == Up(AfterAll(v.worker.process, front)) && (Consumed !in front ==> SameApprovals(w, v))
    ensures var n := Run(w, steps); var last := events[|events| - 1];
            && Invariant(n) && n.attempt == w.attempt
            && (if more
                then n.worker == Up(AfterAll(v.worker.process, events)) && (Consumed !in events ==> SameApprovals(n, v))
                     && n.calls == w.calls + MadeBy(Intent(v.worker.process.view.assignment, v.attempt), CallsIn([last]))
                else n.worker.Down? && last.Saved? && Superseded(n.disk, last.record) && n.calls == w.calls)
            && (Unsettled(w) ==> more && Unsettled(n))
  {
    hide Invariant, Allowed, After, AllowedSave, Next, Run, Approved, Unsettled, Superseded, CallsIn;
    var last := events[|events| - 1];
    more := true;
    SameAssignment(v.worker.process, events[..|events| - 1]);
    OneCallIn(last);
    match last
    case Saved(r) =>
      AllowedSaved(w.worker.process, r);
      more, steps := OneSave(w, r);
    case Consumed =>
      var front := events[..|events| - 1];
      MayConsume(w.worker.process);
      ConsumesWhatItLoaded(v.worker.process, front);
      UsedUp(v.worker.process, front);
      StillApproved(v, w);
      OneConsumption(w);
      steps := [Step.Consume];
    case Mutated(call) =>
      OneCall(w, call);
      steps := [Mutate(call)];
    case _ =>
      OneHearing(w, last);
      steps := [Step.Hear(last)];
  }

  lemma AllowedSaved(p: Process, r: Record)
    requires Allowed(p, Saved(r))
    ensures AllowedSave(p, r)
  {
  }
}
