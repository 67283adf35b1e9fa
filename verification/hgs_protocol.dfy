/**
 Every run of the HGS worker: loads, offers, executions, recoveries, releases
 and crashes between any two file writes. A process does what `AllowedSave` and
 `Allowed` permit, which is what the methods of `HgsManagement` are shown to do.
 */
module HgsProtocol {
  import opened Wrappers
  import opened AtomicWrites
  import opened HgsManagement
  import opened HgsStore

  /** A worker process: not running, running with nothing loaded, holding a record, or in the middle of a save. */
  datatype Worker =
    | Down
    | Idle
    | Up(process: Process)
    | Saving(target: Process, pending: seq<Write>, refused: bool)

  /** A claim that was asked for a job, and its answer. */
  datatype Asked = Asked(jobId: string, reply: Reply)

  /** `applied` lists the jobs for which the provider was asked to change the host, call by call; `asked` the claims. */
  datatype World = World(disk: Disk, worker: Worker, applied: seq<string>, asked: seq<Asked>)

  datatype Step =
    | Crash
    | Load
    | Offer(job: Job)
    | Save(record: Record)
    | WriteNext
    | Hear(event: Event)
    | Release(jobId: string, planDigest: string)

  function Begin(w: World, target: Process, plan: Plan): World {
    if plan.writes != [] then w.(worker := Saving(target, plan.writes, plan.refused))
    else w.(worker := if plan.refused then Down else Up(target))
  }

  function AfterLoad(w: World): World {
    match Recorded(w.disk)
    case None => w.(worker := Idle)
    case Some(found) =>
      if !ReceiptAgrees(w.disk, found) then w
      else Begin(w, Start(Resumed(w.disk, found)), LoadPlan(w.disk, found))
  }

  /** A job is taken only by a worker with nothing under way, no receipt for it, and no fence it must respect. */
  predicate MayTake(w: World, job: Job) {
    && (w.worker.Idle? || (w.worker.Up? && w.worker.process.view.state.Terminal?))
    && !FenceOf(w.disk).Broken?
    && (FenceOf(w.disk).Closed? ==> PermittedWhileFenced(FenceOf(w.disk).record, job))
    && job.jobId !in w.disk.receipts
  }

  function Fresh(job: Job): Process {
    Start(Record(job, Prepared, None, None))
  }

  function Next(w: World, step: Step): World {
    match step
    case Crash => w.(worker := Down)
    case Load => if w.worker.Down? then AfterLoad(w) else w
    case Offer(job) => if MayTake(w, job) then Begin(w, Fresh(job), PlanOf(w.disk, Fresh(job).view)) else w
    case Save(r) =>
      if w.worker.Up? && AllowedSave(w.worker.process, r)
      then Begin(w, After(w.worker.process, Saved(r)), PlanOf(w.disk, r)) else w
    case WriteNext =>
      if !w.worker.Saving? || w.worker.pending == [] then w
      else
        var rest := w.worker.pending[1..];
        w.(disk := Perform(w.disk, w.worker.pending[0]),
           worker := if rest != [] then w.worker.(pending := rest)
                     else if w.worker.refused then Down else Up(w.worker.target))
    case Hear(e) =>
      if !w.worker.Up? || e.Saved? || !Allowed(w.worker.process, e) then w
      else
        var id := w.worker.process.view.assignment.jobId;
        w.(worker := Up(After(w.worker.process, e)),
           applied := if e.Applied? then w.applied + [id] else w.applied,
           asked := if e.Claimed? then w.asked + [Asked(id, e.reply)] else w.asked)
    case Release(id, digest) => if w.worker.Saving? then w else w.(disk := AfterRelease(w.disk, id, digest))
  }

  function Run(w: World, steps: seq<Step>): World
    decreases |steps|
  {
    if steps == [] then w else Run(Next(w, steps[0]), steps[1..])
  }

  // ----- What always holds -----

  ghost predicate IsFailed(r: Record) { r.outcome.Some? && r.outcome.value.status.Failed? }

  /** A success rests on an observation that meets the postcondition, or is a reboot with nothing pending. */
  ghost predicate SuccessIsBacked(r: Record) {
    r.outcome.Some? && r.outcome.value.status.Succeeded? ==> Justified(r, r.outcome.value)
  }

  ghost predicate GoodReceipt(id: string, r: Record) {
    && r.assignment.jobId == id && r.state.Terminal? && ValidRecord(r) && SuccessIsBacked(r)
    && (NeedsReconciliation(r) ==> !ReadOnly(r.assignment))
  }

  /** From the claim on, a record that is not settled carries an observation that met the prerequisites. */
  ghost predicate Grounded(r: Record) {
    1 <= Rank(r.state) <= 3 ==> r.before.Some? && Prerequisites(r.assignment, r.before.value)
  }

  ghost predicate DiskHolds(d: Disk) {
    && (forall id | id in d.receipts :: GoodReceipt(id, d.receipts[id]))
    && (d.current.Some? ==> ValidRecord(d.current.value) && ReceiptAgrees(d, d.current.value) && Grounded(d.current.value))
    && (d.current.Some? && d.current.value.state.Terminal? ==>
          d.current.value.assignment.jobId in d.receipts && d.receipts[d.current.value.assignment.jobId] == d.current.value)
    && (forall id | id in d.releases :: id in d.receipts && NeedsReconciliation(d.receipts[id])
                                        && d.receipts[id].assignment.planDigest == d.releases[id])
    && (d.fence.Some? ==> d.fence.value.assignment.jobId in d.receipts
                          && d.receipts[d.fence.value.assignment.jobId] == d.fence.value && NeedsReconciliation(d.fence.value))
  }

  /** A closed fence stands for the current job, or the current job only looks. */
  ghost predicate FenceRespected(d: Disk) {
    FenceOf(d).Closed? ==>
      (d.current.Some? && (d.current.value.assignment == FenceOf(d).record.assignment || ReadOnly(d.current.value.assignment)))
  }

  ghost predicate OpenReconciliation(d: Disk, id: string) {
    id in d.receipts && NeedsReconciliation(d.receipts[id]) && id !in d.releases
  }

  /** Every open reconciliation is the closed fence, except while its own save is being finished. */
  ghost predicate Fenced(d: Disk) {
    forall id | OpenReconciliation(d, id) ::
      || FenceOf(d) == Closed(d.receipts[id])
      || (d.current.Some? && d.current.value.assignment.jobId == id && !d.current.value.state.Terminal?)
  }

  ghost predicate FencedStrictly(d: Disk) {
    forall id | OpenReconciliation(d, id) :: FenceOf(d) == Closed(d.receipts[id])
  }

  ghost predicate NoRepeats(s: seq<string>) {
    forall i, j | 0 <= i < j < |s| :: s[i] != s[j]
  }

  /** A job that was applied is settled otherwise than as failed, or its record on disk shows at least the intent. */
  ghost predicate AppliedAccounted(d: Disk, id: string) {
    if id in d.receipts then !IsFailed(d.receipts[id]) && !ReadOnly(d.receipts[id].assignment)
    else d.current.Some? && d.current.value.assignment.jobId == id && Rank(d.current.value.state) >= 2
         && !ReadOnly(d.current.value.assignment)
  }

  ghost predicate Holds(p: Process, w: World) {
    var d := w.disk;
    var id := p.view.assignment.jobId;
    && ValidRecord(p.view) && d.current.Some? && FencedStrictly(d)
    && p.view == Resumed(d, d.current.value)
    && (p.own ==> Rank(p.view.state) >= 2) && (p.applied ==> p.own)
    && (p.own && !p.view.state.Terminal? ==> (id in w.applied <==> p.applied))
  }

  /** A record on its way to disk keeps what is known about its job. */
  ghost predicate Sound(r: Record, w: World) {
    var id := r.assignment.jobId;
    && ValidRecord(r)
    && (Rank(r.state) < 2 ==> id !in w.applied)
    && (r.state.Terminal? && IsFailed(r) ==> id !in w.applied)
    && (NeedsReconciliation(r) ==> !ReadOnly(r.assignment))
    && (r.state.Terminal? ==> SuccessIsBacked(r)) && Grounded(r)
  }

  ghost predicate SavingHolds(target: Process, ws: seq<Write>, refused: bool, w: World) {
    var d := w.disk;
    var r := target.view;
    var id := r.assignment.jobId;
    && Sound(r, w) && !refused
    && (d.current.Some? && d.current.value.assignment.jobId == id ==> Rank(d.current.value.state) <= Rank(r.state))
    && (target.own ==> Rank(r.state) >= 2) && (target.applied ==> target.own)
    && (target.own && !r.state.Terminal? ==> (id in w.applied <==> target.applied))
    && if !r.state.Terminal? then
         ws == [PutCurrent(r)] && id !in d.receipts && FencedStrictly(d)
         && (Rank(r.state) > 0 ==> d.current.Some? && d.current.value.assignment == r.assignment)
         && (Rank(r.state) == 0 && d.current.Some? ==> d.current.value.assignment == r.assignment || d.current.value.assignment.jobId in d.receipts)
         && (FenceOf(d).Closed? ==> ReadOnly(r.assignment))
       else
         && d.current.Some? && d.current.value.assignment == r.assignment
         && (if ws != [] && ws[0] == PutReceipt(r) then id !in d.receipts && FencedStrictly(d) && !d.current.value.state.Terminal?
             else id in d.receipts && d.receipts[id] == r)
         && (if NeedsReconciliation(r)
             then ws in {[PutReceipt(r), PutFence(r), PutCurrent(r)], [PutFence(r), PutCurrent(r)], [PutCurrent(r)]}
             else ws in {[PutReceipt(r), PutCurrent(r)], [PutCurrent(r)]})
         && (ws == [PutCurrent(r)] ==> FencedStrictly(d))
  }

  ghost predicate WorkerHolds(w: World) {
    match w.worker
    case Down => true
    case Idle => w.disk.current.None?
    case Up(p) => Holds(p, w)
    case Saving(target, ws, refused) => SavingHolds(target, ws, refused, w)
  }

  ghost predicate Invariant(w: World) {
    && DiskHolds(w.disk) && FenceRespected(w.disk) && Fenced(w.disk)
    && NoRepeats(w.applied)
    && (forall id | id in w.applied :: AppliedAccounted(w.disk, id))
    && (w.disk.current.None? ==> w.disk.receipts == map[] && w.applied == [])
    && WorkerHolds(w)
  }

  lemma LoadHolds(w: World)
    requires Invariant(w) && w.worker.Down?
    ensures Invariant(AfterLoad(w))
  {
    hide ValidRecord, NoRepeats, SuccessIsBacked, Prerequisites;
    if w.disk.current.Some? {
      var d, found := w.disk, w.disk.current.value;
      var id := found.assignment.jobId;
      if id in d.receipts && NeedsReconciliation(d.receipts[id]) {
        assert LoadPlan(d, found).writes == [PutFence(d.receipts[id]), PutCurrent(d.receipts[id])];
      }
    }
  }

  lemma OfferHolds(w: World, job: Job)
    requires Invariant(w) && MayTake(w, job)
    ensures Invariant(Next(w, Offer(job)))
  {
  }

  lemma SavedSuccessIsBacked(p: Process, r: Record)
    requires AllowedSave(p, r)
    ensures r.state.Terminal? ==> SuccessIsBacked(r)
  {
    hide Justified;
  }

  lemma SaveHolds(w: World, r: Record)
    requires Invariant(w) && w.worker.Up? && AllowedSave(w.worker.process, r)
    ensures Invariant(Next(w, Save(r)))
  {
    hide Postcondition, Prerequisites, Justified, NoRepeats;
    var p := w.worker.process;
    SavedSuccessIsBacked(p, r);
    assert Sound(r, w);
    if r.state.Terminal? {
      assert PlanOf(w.disk, r).writes == if NeedsReconciliation(r) then [PutReceipt(r), PutFence(r), PutCurrent(r)] else [PutReceipt(r), PutCurrent(r)];
    }
  }

  lemma PutReceiptWorker(w: World)
    requires Invariant(w) && w.worker.Saving? && w.worker.pending != [] && w.worker.pending[0].PutReceipt?
    ensures WorkerHolds(Next(w, WriteNext))
  {
    hide ValidRecord, NoRepeats, SuccessIsBacked, Grounded;
  }

  lemma PutReceiptDisk(w: World)
    requires Invariant(w) && w.worker.Saving? && w.worker.pending != [] && w.worker.pending[0].PutReceipt?
    ensures var n := Next(w, WriteNext); DiskHolds(n.disk) && FenceRespected(n.disk) && Fenced(n.disk)
  {
    hide ValidRecord, NoRepeats, SuccessIsBacked, Grounded, AppliedAccounted;
  }

  lemma PutReceiptHolds(w: World)
    requires Invariant(w) && w.worker.Saving? && w.worker.pending != [] && w.worker.pending[0].PutReceipt?
    ensures Invariant(Next(w, WriteNext))
  {
    hide ValidRecord, NoRepeats, SuccessIsBacked, Grounded, FenceRespected, Fenced;
    PutReceiptWorker(w);
    PutReceiptDisk(w);
  }

  lemma PutFenceHolds(w: World)
    requires Invariant(w) && w.worker.Saving? && w.worker.pending != [] && w.worker.pending[0].PutFence?
    ensures Invariant(Next(w, WriteNext))
  {
    hide ValidRecord, NoRepeats, SuccessIsBacked, Grounded;
  }

  lemma PutCurrentWorker(w: World)
    requires Invariant(w) && w.worker.Saving? && w.worker.pending != [] && w.worker.pending[0].PutCurrent?
    ensures WorkerHolds(Next(w, WriteNext))
  {
    hide ValidRecord, NoRepeats, SuccessIsBacked, Grounded;
  }

  lemma PutCurrentDisk(w: World)
    requires Invariant(w) && w.worker.Saving? && w.worker.pending != [] && w.worker.pending[0].PutCurrent?
    ensures var n := Next(w, WriteNext); DiskHolds(n.disk) && FenceRespected(n.disk) && Fenced(n.disk)
  {
    hide ValidRecord, NoRepeats, SuccessIsBacked, Grounded, AppliedAccounted;
  }

  lemma PutCurrentHolds(w: World)
    requires Invariant(w) && w.worker.Saving? && w.worker.pending != [] && w.worker.pending[0].PutCurrent?
    ensures Invariant(Next(w, WriteNext))
  {
    hide ValidRecord, NoRepeats, SuccessIsBacked, Grounded, FenceRespected, Fenced;
    PutCurrentWorker(w);
    PutCurrentDisk(w);
  }

  lemma HearHolds(w: World, e: Event)
    requires Invariant(w)
    ensures Invariant(Next(w, Hear(e)))
  {
    hide HgsManagement.Hear, Affirmed, Prerequisites, NothingToDo, Postcondition;
  }

  lemma ReleaseHolds(w: World, id: string, digest: string)
    requires Invariant(w)
    ensures Invariant(Next(w, Release(id, digest)))
  {
    hide ValidRecord, NoRepeats, SuccessIsBacked, Grounded;
  }

  lemma StepHolds(w: World, step: Step)
    requires Invariant(w)
    ensures Invariant(Next(w, step))
  {
    hide DiskHolds, FenceRespected, Fenced, NoRepeats, AppliedAccounted, WorkerHolds, AllowedSave;
    match step
    case Crash => assert WorkerHolds(w.(worker := Down)) by { WorkerDown(w); }
    case Load => if w.worker.Down? { LoadHolds(w); }
    case Offer(job) => if MayTake(w, job) { OfferHolds(w, job); }
    case Save(r) => if w.worker.Up? && AllowedSave(w.worker.process, r) { SaveHolds(w, r); }
    case WriteNext =>
      if w.worker.Saving? && w.worker.pending != [] {
        match w.worker.pending[0]
        case PutReceipt(_) => PutReceiptHolds(w);
        case PutFence(_) => PutFenceHolds(w);
        case PutCurrent(_) => PutCurrentHolds(w);
      }
    case Hear(e) => HearHolds(w, e);
    case Release(id, digest) => ReleaseHolds(w, id, digest);
  }

  lemma WorkerDown(w: World)
    ensures WorkerHolds(w.(worker := Down))
  {
  }

  const BLANK := World(Disk(None, map[], None, map[]), Down, [], [])

  lemma {:induction false} RunHolds(w: World, steps: seq<Step>)
    requires Invariant(w)
    ensures Invariant(Run(w, steps))
    decreases |steps|
  {
    hide Invariant, Next;
    if steps != [] {
      StepHolds(w, steps[0]);
      RunHolds(Next(w, steps[0]), steps[1..]);
    }
  }

  lemma BlankHolds()
    ensures Invariant(BLANK)
  {
  }

  // ----- Main results, over every run from an empty disk -----

  /**
   The host is changed at most once for a job, whatever crashes, restarts and repeated offers there are;
   a job it was changed for is never recorded as failed, and no save stops at a refusal once it began.
   */
  lemma ChangedAtMostOnce(steps: seq<Step>)
    ensures var w := Run(BLANK, steps);
            && NoRepeats(w.applied)
            && (forall id | id in w.applied && id in w.disk.receipts :: !IsFailed(w.disk.receipts[id]))
            && (w.worker.Saving? ==> !w.worker.refused)
  {
    BlankHolds();
    RunHolds(BLANK, steps);
    var w := Run(BLANK, steps);
    forall id | id in w.applied && id in w.disk.receipts ensures !IsFailed(w.disk.receipts[id]) {
      assert AppliedAccounted(w.disk, id);
    }
  }

  /** Whenever a worker is at work, every reconciliation that was not released is the closed fence. */
  lemma ReconciliationIsFenced(steps: seq<Step>, id: string)
    requires var w := Run(BLANK, steps); w.worker.Up? && OpenReconciliation(w.disk, id)
    ensures var w := Run(BLANK, steps); FenceOf(w.disk) == Closed(w.disk.receipts[id])
  {
    BlankHolds();
    RunHolds(BLANK, steps);
  }

  lemma StepOpensByRelease(w: World, step: Step)
    requires Invariant(w) && FenceOf(w.disk).Closed? && FenceOf(Next(w, step).disk) != FenceOf(w.disk)
    ensures var fenced := FenceOf(w.disk).record.assignment; step == Release(fenced.jobId, fenced.planDigest)
  {
    hide ValidRecord, NoRepeats, AppliedAccounted, SuccessIsBacked, Grounded;
  }

  /** In every run a closed fence opens only through a release that names its job and its plan. */
  lemma FenceOpensByRelease(steps: seq<Step>, step: Step)
    requires FenceOf(Run(BLANK, steps).disk).Closed? && FenceOf(Next(Run(BLANK, steps), step).disk) != FenceOf(Run(BLANK, steps).disk)
    ensures var fenced := FenceOf(Run(BLANK, steps).disk).record.assignment; step == Release(fenced.jobId, fenced.planDigest)
  {
    hide Invariant, Run, Next;
    BlankHolds();
    RunHolds(BLANK, steps);
    StepOpensByRelease(Run(BLANK, steps), step);
  }

  /** The first of the pending writes, done. */
  lemma WriteKeepsReceipts(w: World)
    requires WorkerHolds(w) && w.worker.Saving? && w.worker.pending != []
    ensures forall id | id in w.disk.receipts ::
              id in Next(w, WriteNext).disk.receipts && Next(w, WriteNext).disk.receipts[id] == w.disk.receipts[id]
  {
    hide Sound, FencedStrictly;
  }

  lemma StepKeepsReceipts(w: World, step: Step)
    requires Invariant(w)
    ensures forall id | id in w.disk.receipts :: id in Next(w, step).disk.receipts && Next(w, step).disk.receipts[id] == w.disk.receipts[id]
  {
    hide DiskHolds, FenceRespected, Fenced, NoRepeats, AppliedAccounted, WorkerHolds, Next, Rank;
    if step.WriteNext? && w.worker.Saving? && w.worker.pending != [] { WriteKeepsReceipts(w); } else { OtherStepsWriteNothing(w, step); }
  }

  lemma OtherStepsWriteNothing(w: World, step: Step)
    requires !(step.WriteNext? && w.worker.Saving? && w.worker.pending != [])
    ensures Next(w, step).disk.receipts == w.disk.receipts && Next(w, step).disk.current == w.disk.current
  {
    hide AllowedSave, PlanOf, LoadPlan;
  }

  lemma {:induction false} RunKeepsReceipts(w: World, steps: seq<Step>)
    requires Invariant(w)
    ensures forall id | id in w.disk.receipts :: id in Run(w, steps).disk.receipts && Run(w, steps).disk.receipts[id] == w.disk.receipts[id]
    decreases |steps|
  {
    hide Invariant, Next;
    if steps != [] {
      StepKeepsReceipts(w, steps[0]);
      StepHolds(w, steps[0]);
      RunKeepsReceipts(Next(w, steps[0]), steps[1..]);
    }
  }

  ghost predicate Holding(worker: Worker, r: Record) {
    (worker.Up? && worker.process.view == r) || (worker.Saving? && worker.target.view == r)
  }

  lemma LoadReturnsReceipt(w: World, id: string)
    requires Invariant(w) && id in w.disk.receipts && w.worker.Down?
    requires w.disk.current.Some? && w.disk.current.value.assignment.jobId == id
    ensures Holding(Next(w, Load).worker, w.disk.receipts[id])
  {
    hide ValidRecord, NoRepeats, AppliedAccounted, SuccessIsBacked, Grounded;
  }

  /** However a run goes on after a receipt was written, it never changes, and every load of its job returns it. */
  lemma ReceiptIsFinal(steps: seq<Step>, more: seq<Step>, id: string)
    requires id in Run(BLANK, steps).disk.receipts
    ensures var receipt, later := Run(BLANK, steps).disk.receipts[id], Run(BLANK, steps + more);
            && id in later.disk.receipts && later.disk.receipts[id] == receipt
            && (later.worker.Down? && later.disk.current.Some? && later.disk.current.value.assignment.jobId == id ==>
                  Holding(Next(later, Load).worker, receipt))
  {
    hide Invariant, Run, Next, Holding;
    BlankHolds();
    RunHolds(BLANK, steps);
    RunHolds(BLANK, steps + more);
    RunAppend(BLANK, steps, more);
    RunKeepsReceipts(Run(BLANK, steps), more);
    var later := Run(BLANK, steps + more);
    if later.worker.Down? && later.disk.current.Some? && later.disk.current.value.assignment.jobId == id { LoadReturnsReceipt(later, id); }
  }

  /** In every run, a job recorded as succeeded carries the observation that justifies it. */
  lemma SucceededIsJustified(steps: seq<Step>, id: string)
    requires var receipts := Run(BLANK, steps).disk.receipts;
             id in receipts && receipts[id].outcome.Some? && receipts[id].outcome.value.status.Succeeded?
    ensures var r := Run(BLANK, steps).disk.receipts[id]; Justified(r, r.outcome.value)
  {
    hide Justified;
    BlankHolds();
    RunHolds(BLANK, steps);
    assert GoodReceipt(id, Run(BLANK, steps).disk.receipts[id]);
  }

  lemma WriteAdvancesPhase(w: World)
    requires WorkerHolds(w) && w.worker.Saving? && w.worker.pending != [] && w.disk.current.Some?
    ensures var n := Next(w, WriteNext).disk.current;
            n.Some? && (n.value.assignment.jobId == w.disk.current.value.assignment.jobId ==> Rank(w.disk.current.value.state) <= Rank(n.value.state))
  {
    hide Sound, FencedStrictly, NeedsReconciliation;
  }

  lemma StepAdvancesPhase(w: World, step: Step)
    requires Invariant(w) && w.disk.current.Some?
    ensures var n := Next(w, step).disk.current;
            n.Some? && (n.value.assignment.jobId == w.disk.current.value.assignment.jobId ==> Rank(w.disk.current.value.state) <= Rank(n.value.state))
  {
    hide DiskHolds, FenceRespected, Fenced, NoRepeats, AppliedAccounted, WorkerHolds, Next, Rank;
    if step.WriteNext? && w.worker.Saving? && w.worker.pending != [] { WriteAdvancesPhase(w); } else { OtherStepsWriteNothing(w, step); }
  }

  /** In every run the phase of the job on disk never goes back. */
  lemma PhaseAdvances(steps: seq<Step>, step: Step)
    requires Run(BLANK, steps).disk.current.Some?
    ensures var now, n := Run(BLANK, steps).disk.current.value, Next(Run(BLANK, steps), step).disk.current;
            n.Some? && (n.value.assignment.jobId == now.assignment.jobId ==> Rank(now.state) <= Rank(n.value.state))
  {
    hide Invariant, Run, Next, Rank;
    BlankHolds();
    RunHolds(BLANK, steps);
    StepAdvancesPhase(Run(BLANK, steps), step);
  }

  /** In every run the host is changed only for a job whose prerequisites were met by the observation in its durable intent. */
  lemma ChangedOnlyWhenReady(steps: seq<Step>, step: Step)
    requires Next(Run(BLANK, steps), step).applied != Run(BLANK, steps).applied
    ensures var d := Run(BLANK, steps).disk;
            && d.current.Some? && d.current.value.state.Intent? && !ReadOnly(d.current.value.assignment)
            && d.current.value.before.Some? && Prerequisites(d.current.value.assignment, d.current.value.before.value)
            && d.current.value.assignment.jobId !in d.receipts
  {
    hide Run;
    BlankHolds();
    RunHolds(BLANK, steps);
    StepIsGrounded(Run(BLANK, steps), step);
  }

  /** In every run nothing changes the host while a fence is closed: the reconciliation comes first. */
  lemma NothingChangesWhileFenced(steps: seq<Step>, step: Step)
    requires FenceOf(Run(BLANK, steps).disk).Closed?
    ensures Next(Run(BLANK, steps), step).applied == Run(BLANK, steps).applied
  {
    hide Run, Next;
    BlankHolds();
    RunHolds(BLANK, steps);
    var w := Run(BLANK, steps);
    if Next(w, step).applied != w.applied {
      ChangedOnlyWhenReady(steps, step);
      FenceBlocks(w);
    }
  }

  lemma FenceBlocks(w: World)
    requires Invariant(w) && FenceOf(w.disk).Closed?
    ensures var d := w.disk;
            d.current.Some? && (ReadOnly(d.current.value.assignment) || d.current.value.assignment.jobId in d.receipts)
  {
    hide ValidRecord, NoRepeats, AppliedAccounted, WorkerHolds;
  }

  /** What may be taken while a fence is closed: a look at the same enrollment of the same device, and nothing else. */
  lemma TakenWhileFenced(w: World, job: Job, fenced: Record)
    requires FenceOf(w.disk) == Closed(fenced) && Next(w, Offer(job)) != w
    ensures job.operation.Inspect? && job.tenantId == fenced.assignment.tenantId
            && job.enrollmentId == fenced.assignment.enrollmentId && job.deviceUri == fenced.assignment.deviceUri
  {
  }

  lemma StepIsGrounded(w: World, step: Step)
    requires Invariant(w) && Next(w, step).applied != w.applied
    ensures var d := w.disk;
            && d.current.Some? && d.current.value.state.Intent? && !ReadOnly(d.current.value.assignment)
            && d.current.value.before.Some? && Prerequisites(d.current.value.assignment, d.current.value.before.value)
            && d.current.value.assignment.jobId !in d.receipts
  {
    hide ValidRecord, NoRepeats, AppliedAccounted, SuccessIsBacked, Prerequisites;
  }

  // ----- The results are about runs that exist -----

  lemma Extended(steps: seq<Step>, w: World, step: Step)
    requires Run(BLANK, steps) == w
    ensures Run(BLANK, steps + [step]) == Next(w, step)
  {
    hide Next;
    RunAppend(BLANK, steps, [step]);
    assert [step][1..] == [] && Run(w, [step]) == Run(Next(w, step), []);
  }

  /** A job whose prerequisites are seen can be taken and its claiming record saved. */
  lemma ClaimIsReached(job: Job, seen: Observation) returns (steps: seq<Step>)
    requires Prerequisites(job, seen)
    ensures var claiming := Record(job, Claiming, Some(seen), None);
            Run(BLANK, steps) == World(BLANK.disk.(current := Some(claiming)),
                                       Up(Process(claiming, false, false, Heard(Due, false, false, Some(seen), true))), [], [])
  {
    hide Prerequisites;
    var prepared := Record(job, Prepared, None, None);
    var claiming := Record(job, Claiming, Some(seen), None);
    var d := BLANK.disk;
    var taken := World(d.(current := Some(prepared)), Up(Fresh(job)), [], []);
    var heard := Fresh(job).heard.(live := true, look := Some(seen));
    var ready := Process(claiming, false, false, Heard(Due, false, false, Some(seen), true));
    var todo := [Load, Offer(job), WriteNext, Hear(Dated(true)), Hear(Looked(Some(seen))), Hear(Authorised(Yes)), Save(claiming), WriteNext];
    steps := [];
    var w := BLANK;
    for k := 0 to |todo|
      invariant Run(BLANK, steps) == w
      invariant k == 0 ==> w == BLANK
      invariant k == 1 ==> w == World(d, Idle, [], [])
      invariant k == 2 ==> w == World(d, Saving(Fresh(job), [PutCurrent(prepared)], false), [], [])
      invariant k == 3 ==> w == taken
      invariant k == 4 ==> w == taken.(worker := Up(Fresh(job).(heard := Fresh(job).heard.(live := true))))
      invariant k == 5 ==> w == taken.(worker := Up(Fresh(job).(heard := heard)))
      invariant k == 6 ==> w == taken.(worker := Up(Fresh(job).(heard := heard.(sure := true))))
      invariant k == 7 ==> w == taken.(worker := Saving(ready, [PutCurrent(claiming)], false))
      invariant k == 8 ==> w == World(d.(current := Some(claiming)), Up(ready), [], [])
    {
      Extended(steps, w, todo[k]);
      steps := steps + [todo[k]];
      w := Next(w, todo[k]);
    }
  }

  /** Any such job that has something to change is then claimed and executed up to changing the host. */
  lemma HostIsReached(job: Job, seen: Observation) returns (steps: seq<Step>)
    requires !ReadOnly(job) && Prerequisites(job, seen) && !NothingToDo(job, seen)
    ensures var w := Run(BLANK, steps); w.applied == [job.jobId] && w.asked == [Asked(job.jobId, Yes)]
  {
    hide Prerequisites, NothingToDo;
    steps := ClaimIsReached(job, seen);
    var claiming := Record(job, Claiming, Some(seen), None);
    var intent := claiming.(state := Intent);
    var w := Run(BLANK, steps);
    var d := w.disk;
    var asked := [Asked(job.jobId, Yes)];
    var claimed := Process(claiming, false, false, Heard(Answered(Yes), false, false, Some(seen), true));
    var sure := claimed.heard.(sure := true);
    var ready := Process(intent, true, false, claimed.heard);
    var todo := [Hear(Claimed(Yes)), Hear(Authorised(Yes)), Hear(Dated(true)), Save(intent), WriteNext,
                 Hear(Authorised(Yes)), Hear(Dated(true)), Hear(Applied(true))];
    for k := 0 to |todo|
      invariant Run(BLANK, steps) == w
      invariant k == 0 ==> w == World(d, Up(claimed.(heard := claimed.heard.(claim := Due))), [], []) && d.receipts == map[]
      invariant k == 1 ==> w == World(d, Up(claimed), [], asked)
      invariant k == 2 ==> w == World(d, Up(claimed.(heard := sure)), [], asked)
      invariant k == 3 ==> w == World(d, Up(claimed.(heard := sure.(live := true))), [], asked)
      invariant k == 4 ==> w == World(d, Saving(ready, [PutCurrent(intent)], false), [], asked)
      invariant k == 5 ==> w == World(d.(current := Some(intent)), Up(ready), [], asked)
      invariant k == 6 ==> w == World(d.(current := Some(intent)), Up(ready.(heard := sure)), [], asked)
      invariant k == 7 ==> w == World(d.(current := Some(intent)), Up(ready.(heard := sure.(live := true))), [], asked)
      invariant k == 8 ==> w.applied == [job.jobId] && w.asked == asked
    {
      Extended(steps, w, todo[k]);
      steps := steps + [todo[k]];
      w := Next(w, todo[k]);
    }
  }

  // ----- The methods' traces are runs of this machine -----

  lemma {:induction false} RunAppend(w: World, a: seq<Step>, b: seq<Step>)
    ensures Run(w, a + b) == Run(Run(w, a), b)
    decreases |a|
  {
    hide Next;
    if a == [] {
      assert a + b == b;
    } else {
      assert (a + b)[0] == a[0] && (a + b)[1..] == a[1..] + b;
      RunAppend(Next(w, a[0]), a[1..], b);
    }
  }

  lemma {:induction false} SaveCompletes(w: World) returns (steps: seq<Step>)
    requires Invariant(w) && w.worker.Saving? && w.worker.pending != [] && !w.worker.refused
    ensures var n := Run(w, steps);
            && Invariant(n) && n.worker == Up(w.worker.target) && n.applied == w.applied && n.asked == w.asked
            && n.disk == PerformAll(Perform, w.disk, w.worker.pending)
    decreases |w.worker.pending|
  {
    StepHolds(w, WriteNext);
    var n := Next(w, WriteNext);
    hide Invariant;
    assert w.worker.pending == [w.worker.pending[0]] + w.worker.pending[1..];
    OneMore(Perform, w.disk, w.worker.pending[0], w.worker.pending[1..]);
    if n.worker.Up? {
      steps := [WriteNext];
      assert steps[1..] == [] && Run(w, steps) == Run(n, []);
    } else {
      var more := SaveCompletes(n);
      steps := [WriteNext] + more;
      assert steps[1..] == more;
    }
  }

  lemma OneSave(w: World, r: Record) returns (steps: seq<Step>)
    requires Invariant(w) && w.worker.Up? && AllowedSave(w.worker.process, r)
    ensures var n := Run(w, steps);
            && Invariant(n) && n.worker == Up(After(w.worker.process, Saved(r))) && n.applied == w.applied && n.asked == w.asked
            && n.disk == PerformAll(Perform, w.disk, PlanOf(w.disk, r).writes)
  {
    hide Invariant, AllowedSave, PlanOf, PerformAll;
    SaveIsNotRefused(w, r);
    StepHolds(w, Save(r));
    var more := SaveCompletes(Next(w, Save(r)));
    steps := [Save(r)] + more;
    assert steps[1..] == more;
  }

  /** The changes and the claims among the events of one process. */
  function AppliedBy(id: string, events: seq<Event>): seq<string> {
    if events == [] then []
    else AppliedBy(id, events[..|events| - 1]) + if events[|events| - 1].Applied? then [id] else []
  }

  function AskedBy(id: string, events: seq<Event>): seq<Asked> {
    if events == [] then []
    else
      var e := events[|events| - 1];
      AskedBy(id, events[..|events| - 1]) + if e.Claimed? then [Asked(id, e.reply)] else []
  }

  lemma OneEvent(w: World, e: Event) returns (steps: seq<Step>)
    requires Invariant(w) && w.worker.Up? && Allowed(w.worker.process, e)
    ensures var n := Run(w, steps); var id := w.worker.process.view.assignment.jobId;
            && Invariant(n) && n.worker == Up(After(w.worker.process, e))
            && n.applied == w.applied + (if e.Applied? then [id] else [])
            && n.asked == w.asked + (if e.Claimed? then [Asked(id, e.reply)] else [])
  {
    hide Invariant, After, Allowed;
    if e.Saved? {
      AllowedSaved(w.worker.process, e.record);
      steps := OneSave(w, e.record);
    } else {
      steps := [Step.Hear(e)];
      StepHolds(w, Step.Hear(e));
      assert steps[1..] == [] && Run(w, steps) == Run(Next(w, Step.Hear(e)), []);
    }
  }

  lemma AllowedSaved(p: Process, r: Record)
    requires Allowed(p, Saved(r))
    ensures AllowedSave(p, r)
  {
  }

  lemma SaveIsNotRefused(w: World, r: Record)
    requires Invariant(w) && w.worker.Up? && AllowedSave(w.worker.process, r)
    ensures !PlanOf(w.disk, r).refused && PlanOf(w.disk, r).writes != []
  {
    hide Postcondition, Justified, NoRepeats, Fenced;
  }

  /** In every run each save that a worker may make writes something and is not refused: it can be carried out in full. */
  lemma EverySaveIsCarriedOut(steps: seq<Step>, r: Record) returns (more: seq<Step>)
    requires var w := Run(BLANK, steps); w.worker.Up? && AllowedSave(w.worker.process, r)
    ensures var w := Run(BLANK, steps); var plan := PlanOf(w.disk, r); var n := Run(w, more);
            && !plan.refused && plan.writes != []
            && n.worker == Up(After(w.worker.process, Saved(r))) && n.disk == PerformAll(Perform, w.disk, plan.writes)
  {
    hide Invariant, Run, AllowedSave, PlanOf;
    BlankHolds();
    RunHolds(BLANK, steps);
    SaveIsNotRefused(Run(BLANK, steps), r);
    more := OneSave(Run(BLANK, steps), r);
  }

  lemma {:induction false} SameJob(p: Process, events: seq<Event>)
    requires AllowedAll(p, events)
    ensures AfterAll(p, events).view.assignment == p.view.assignment
    decreases |events|
  {
    hide ValidRecord, Prerequisites, Postcondition, AllowedEnd, Affirmed, HgsManagement.Hear;
    if events != [] { SameJob(p, events[..|events| - 1]); }
  }

  /** Whatever a method was shown to do with a loaded record, the machine does with its saves completed. */
  lemma {:induction false} TraceIsRun(w: World, events: seq<Event>) returns (steps: seq<Step>)
    requires Invariant(w) && w.worker.Up? && AllowedAll(w.worker.process, events)
    ensures var n := Run(w, steps); var id := w.worker.process.view.assignment.jobId;
            && Invariant(n) && n.worker == Up(AfterAll(w.worker.process, events))
            && n.applied == w.applied + AppliedBy(id, events) && n.asked == w.asked + AskedBy(id, events)
    decreases |events|
  {
    hide Invariant, Allowed, After;
    if events == [] {
      steps := [];
    } else {
      var last := |events| - 1;
      var front := TraceIsRun(w, events[..last]);
      SameJob(w.worker.process, events[..last]);
      var step := OneEvent(Run(w, front), events[last]);
      RunAppend(w, front, step);
      steps := front + step;
    }
  }
}
