/**
 The claims over all runs of the HGS worker: a job is claimed at most once,
 whatever crashes and restarts there are, and the host is changed only for a job
 whose one claim was answered yes.
 */
module HgsClaims {
  import opened Wrappers
  import opened HgsManagement
  import opened HgsStore
  import opened HgsProtocol

  ghost predicate IsAsked(asked: seq<Asked>, id: string) {
    exists k :: 0 <= k < |asked| && asked[k].jobId == id
  }

  ghost predicate OncePerJob(asked: seq<Asked>) {
    forall i, j | 0 <= i < j < |asked| :: asked[i].jobId != asked[j].jobId
  }

  /** A job that was claimed is settled, or its record on disk shows at least the claim. */
  ghost predicate ClaimAccounted(d: Disk, id: string) {
    id in d.receipts || (d.current.Some? && d.current.value.assignment.jobId == id && Rank(d.current.value.state) >= 1)
  }

  ghost predicate ProcessClaims(p: Process, asked: seq<Asked>) {
    var id := p.view.assignment.jobId;
    && (Rank(p.view.state) == 0 || p.heard.claim.Due? ==> !IsAsked(asked, id))
    && (p.heard.claim.Due? ==> Rank(p.view.state) >= 1)
    && (p.heard.claim.Answered? ==> Asked(id, p.heard.claim.reply) in asked)
  }

  ghost predicate WorkerClaims(w: World) {
    match w.worker
    case Up(p) => ProcessClaims(p, w.asked)
    case Saving(target, _, _) => ProcessClaims(target, w.asked)
    case _ => true
  }

  ghost predicate ClaimsHold(w: World) {
    && OncePerJob(w.asked)
    && (forall a | a in w.asked :: ClaimAccounted(w.disk, a.jobId))
    && (forall id | id in w.applied :: Asked(id, Yes) in w.asked)
    && WorkerClaims(w)
  }

  lemma NotAskedUntilTaken(w: World, id: string)
    requires ClaimsHold(w) && !ClaimAccounted(w.disk, id)
    ensures !IsAsked(w.asked, id)
  {
    forall k | 0 <= k < |w.asked| ensures w.asked[k].jobId != id { assert w.asked[k] in w.asked; }
  }

  lemma UpIsAccounted(w: World)
    requires Invariant(w) && w.worker.Up? && Rank(w.worker.process.view.state) >= 1
    ensures ClaimAccounted(w.disk, w.worker.process.view.assignment.jobId)
  {
    hide FenceRespected, Fenced, FencedStrictly, ValidRecord, NoRepeats, AppliedAccounted, SuccessIsBacked, Grounded;
  }

  lemma ClaimClaims(w: World, reply: Reply)
    requires Invariant(w) && ClaimsHold(w) && w.worker.Up? && Allowed(w.worker.process, Claimed(reply))
    ensures ClaimsHold(Next(w, Hear(Claimed(reply))))
  {
    hide DiskHolds, FenceRespected, Fenced, Affirmed, Prerequisites, NothingToDo, ValidRecord, NoRepeats, AppliedAccounted, FencedStrictly;
    var n := Next(w, Hear(Claimed(reply)));
    var id := w.worker.process.view.assignment.jobId;
    assert n.asked == w.asked + [Asked(id, reply)];
    UpIsAccounted(w);
    forall i, j | 0 <= i < j < |n.asked| ensures n.asked[i].jobId != n.asked[j].jobId {
      if j == |w.asked| { assert !IsAsked(w.asked, id) && n.asked[i] == w.asked[i]; }
    }
  }

  lemma HearClaims(w: World, e: Event)
    requires Invariant(w) && ClaimsHold(w)
    ensures ClaimsHold(Next(w, Hear(e)))
  {
    hide DiskHolds, FenceRespected, Fenced, Affirmed, Prerequisites, NothingToDo, ValidRecord, OncePerJob, NoRepeats, AppliedAccounted;
    if w.worker.Up? && e.Claimed? && Allowed(w.worker.process, e) { ClaimClaims(w, e.reply); }
  }

  lemma SaveClaims(w: World, r: Record)
    requires Invariant(w) && ClaimsHold(w)
    ensures ClaimsHold(Next(w, Save(r)))
  {
    hide DiskHolds, FenceRespected, Fenced, Affirmed, Prerequisites, NothingToDo, ValidRecord, PlanOf, AllowedEnd;
  }

  lemma LoadClaims(w: World)
    requires Invariant(w) && ClaimsHold(w)
    ensures ClaimsHold(Next(w, Load))
  {
    hide FenceRespected, Fenced, ValidRecord, LoadPlan, NoRepeats, AppliedAccounted;
    if w.worker.Down? && w.disk.current.Some? && ReceiptAgrees(w.disk, w.disk.current.value) {
      var view := Resumed(w.disk, w.disk.current.value);
      if Rank(view.state) == 0 { NotAskedUntilTaken(w, view.assignment.jobId); }
    }
  }

  lemma OfferClaims(w: World, job: Job)
    requires Invariant(w) && ClaimsHold(w)
    ensures ClaimsHold(Next(w, Offer(job)))
  {
    hide FenceRespected, Fenced, ValidRecord, PlanOf, FenceOf, NoRepeats, AppliedAccounted;
    if MayTake(w, job) {
      NotYetTaken(w, job);
      NotAskedUntilTaken(w, job.jobId);
    }
  }

  lemma NotYetTaken(w: World, job: Job)
    requires Invariant(w) && MayTake(w, job)
    ensures !ClaimAccounted(w.disk, job.jobId)
  {
    hide FenceRespected, Fenced, ValidRecord, PlanOf, FenceOf, NoRepeats, AppliedAccounted;
  }

  lemma WriteClaims(w: World)
    requires Invariant(w) && ClaimsHold(w)
    ensures ClaimsHold(Next(w, WriteNext))
  {
    hide DiskHolds, FenceRespected, Fenced, FenceOf, ValidRecord, NoRepeats, AppliedAccounted, Sound, FencedStrictly, NeedsReconciliation;
    var n := Next(w, WriteNext);
    forall a | a in n.asked ensures ClaimAccounted(n.disk, a.jobId) {
      assert ClaimAccounted(w.disk, a.jobId);
    }
  }

  lemma StepClaims(w: World, step: Step)
    requires Invariant(w) && ClaimsHold(w)
    ensures ClaimsHold(Next(w, step))
  {
    match step
    case Hear(e) => HearClaims(w, e);
    case Save(r) => SaveClaims(w, r);
    case Load => LoadClaims(w);
    case Offer(job) => OfferClaims(w, job);
    case WriteNext => WriteClaims(w);
    case Crash =>
    case Release(id, digest) => ReleaseClaims(w, id, digest);
  }

  lemma ReleaseClaims(w: World, id: string, digest: string)
    requires ClaimsHold(w)
    ensures ClaimsHold(Next(w, Release(id, digest)))
  {
    hide FenceOf, ReleaseMatches;
  }

  lemma {:induction false} RunClaims(w: World, steps: seq<Step>)
    requires Invariant(w) && ClaimsHold(w)
    ensures ClaimsHold(Run(w, steps))
    decreases |steps|
  {
    hide Invariant, ClaimsHold, Next;
    if steps != [] {
      StepHolds(w, steps[0]);
      StepClaims(w, steps[0]);
      RunClaims(Next(w, steps[0]), steps[1..]);
    }
  }

  lemma BlankClaims()
    ensures ClaimsHold(BLANK)
  {
  }

  lemma AnsweredOnce(asked: seq<Asked>, a: Asked, b: Asked)
    requires OncePerJob(asked) && a in asked && b in asked && a.jobId == b.jobId
    ensures a == b
  {
    var i, j :| 0 <= i < |asked| && asked[i] == a && 0 <= j < |asked| && asked[j] == b;
  }

  /** In every run a job is claimed at most once, and the host is changed only for a job whose claim was answered yes. */
  lemma ChangedOnlyWhenClaimed(steps: seq<Step>)
    ensures var w := Run(BLANK, steps);
            && OncePerJob(w.asked) && (forall id | id in w.applied :: Asked(id, Yes) in w.asked)
            && forall a | a in w.asked && a.jobId in w.applied :: a.reply == Yes
  {
    hide Run, Invariant;
    BlankHolds();
    BlankClaims();
    RunClaims(BLANK, steps);
    var w := Run(BLANK, steps);
    forall a | a in w.asked && a.jobId in w.applied ensures a.reply == Yes { AnsweredOnce(w.asked, a, Asked(a.jobId, Yes)); }
  }
}
