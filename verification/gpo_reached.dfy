/**
 The results about runs speak of runs that exist: every job that can be approved
 is claimed, approved, loaded and carried out by a worker, with all the directory
 calls of its operation.
 */
module GpoReached {
  import opened Wrappers
  import opened GpoRecord
  import opened GpoProtocolSteps
  import opened GpoStore
  import opened GpoProtocol
  import GpoManaged
  import GpoPilot

  lemma Extended(steps: seq<Step>, w: World, step: Step)
    requires Run(BLANK, steps) == w
    ensures Run(BLANK, steps + [step]) == Next(w, step)
  {
    hide Next;
    RunAppend(BLANK, steps, [step]);
    OneStep(w, step);
  }

  /** What the portal must have given for a job of its schema. */
  predicate Approvable(job: Job, uri: string, approval: Option<Approval>) {
    && ValidRecord(Fresh(job, uri)) && !Inspection(job)
    && if job.schema == 1 then approval.None? else approval.Some? && ValidApproval(approval.value, job, uri)
  }

  function Claimed(job: Job, uri: string, approval: Option<Approval>): Record {
    Fresh(job, uri).(state := Granted, deadline := 1, approval := approval)
  }

  lemma GrantedRecords(job: Job, uri: string, approval: Option<Approval>)
    requires Approvable(job, uri, approval)
    ensures var claimed := Claimed(job, uri, approval);
            && ValidRecord(Fresh(job, uri)) && ValidRecord(Fresh(job, uri).(state := Granted)) && ValidRecord(claimed)
            && ValidRecord(claimed.(state := Creating)) && TextFor(claimed).Some?
            && (job.schema == 1 ==> TextFor(Fresh(job, uri)) == TextFor(claimed))
  {
    hide ValidManagedJob, ValidApproval, Clean;
  }

  /** The parent takes the job, has its claim granted and its approval written, and ends. */
  lemma ClaimIsReached(job: Job, uri: string, approval: Option<Approval>) returns (steps: seq<Step>)
    requires Approvable(job, uri, approval)
    ensures var claimed := Claimed(job, uri, approval);
            && TextFor(claimed).Some?
            && Run(BLANK, steps) ==
               World(Disk(Some(claimed), map[], map[FileOf(job) := TextFor(claimed).value], {}, {}), Down, 1, [], map[], map[])
  {
    hide ValidRecord, Approvable, TextFor;
    GrantedRecords(job, uri, approval);
    var fresh_ := Fresh(job, uri);
    var granted := fresh_.(state := Granted);
    var claimed := Claimed(job, uri, approval);
    var d := Disk(Some(fresh_), map[], map[], {}, {});
    var approve := if job.schema == 1 then ApproveLocally(job, uri) else SaveApproval;
    var approved := d.(current := Some(claimed), pending := map[FileOf(job) := TextFor(claimed).value]);
    var todo := [Load, Offer(job, uri), WriteNext, Save(granted), WriteNext, Save(claimed), WriteNext, approve, Crash];
    steps := [];
    var w := BLANK;
    for k := 0 to |todo|
      invariant Run(BLANK, steps) == w
      invariant k == 0 ==> w == BLANK
      invariant k == 1 ==> w == BLANK.(worker := Idle, attempt := 1)
      invariant k == 2 ==> w == BLANK.(worker := Saving(Claiming(fresh_), [PutCurrent(fresh_)]), attempt := 1)
      invariant k == 3 ==> w == BLANK.(disk := d, worker := Up(Claiming(fresh_)), attempt := 1)
      invariant k == 4 ==> w == BLANK.(disk := d, worker := Saving(Claiming(granted), [PutCurrent(granted)]), attempt := 1)
      invariant k == 5 ==> w == BLANK.(disk := d.(current := Some(granted)), worker := Up(Claiming(granted)), attempt := 1)
      invariant k == 6 ==> w == BLANK.(disk := d.(current := Some(granted)), worker := Saving(Claiming(claimed), [PutCurrent(claimed)]), attempt := 1)
      invariant k == 7 ==> w == BLANK.(disk := d.(current := Some(claimed)), worker := Up(Claiming(claimed)), attempt := 1)
      invariant k == 8 ==> w == BLANK.(disk := approved, worker := Up(Claiming(claimed)), attempt := 1)
      invariant k == 9 ==> w == BLANK.(disk := approved, worker := Down, attempt := 1)
    {
      Extended(steps, w, todo[k]);
      steps := steps + [todo[k]];
      w := Next(w, todo[k]);
    }
  }

  // ----- What a worker does with a granted job when nothing fails -----

  /** The directory calls the execution of a job makes, in order. */
  function CallsFor(j: Job): seq<Call> { if j.schema < 3 then GpoPilot.PILOT_CALLS else GpoManaged.ManagedCalls(j) }

  function Mutations(calls: seq<Call>): seq<Event> {
    seq(|calls|, k requires 0 <= k < |calls| => Mutated(calls[k]))
  }

  /** What a managed job comes across when nothing fails: its backup, the GPO it gets, and the state between import and link. */
  datatype Findings = Findings(backup: (string, string), guid: string, prepared: Snapshot)

  /** From the first question for authority to the use of the approval. */
  ghost function Approaching(r: Record, f: Findings): seq<Event> {
    if r.assignment.schema < 3 || r.assignment.expected.None? then GpoPilot.PILOT_APPROACH
    else GpoManaged.Approach(r.assignment.operation, r.assignment.expected.value, true, f.backup)
  }

  /** From the use of the approval until the GPO has its name on disk. */
  function Naming(r: Record, guid: string): seq<Event> {
    var made := r.assignment.schema < 3 || r.assignment.gpoGuid == "";
    [Consumed, Saved(r.(state := Creating)), Authorised(true)]
    + (if made then [Mutated(CreateCall), Event.Named(guid)] else [])
    + [Saved(r.(state := Created, guid := guid))]
  }

  /** The writes, with the saves, the reading and the question for authority between them. */
  function Writes(r: Record, f: Findings): seq<Event> {
    var j := r.assignment;
    var importing := Saved(r.(state := Importing, guid := f.guid));
    if j.schema < 3 then Mutations([DisableCall, IdentifyCall]) + [importing] + Mutations([ImportCall, DisableCall])
    else if j.operation.ImportAndLink? then
      [importing] + Mutations(GpoManaged.PreparationCalls(j)) + [Seen(f.prepared), importing, Authorised(true)] + Mutations([LinkCall])
    else [importing] + Mutations(GpoManaged.OperationCalls(j))
  }

  predicate WritesNothing(j: Job) { j.schema >= 3 && j.operation.ImportManaged? && j.gpoGuid != "" && !Adoption(j) }

  /** A whole execution up to its last call. */
  ghost function Carried(r: Record, f: Findings): seq<Event> {
    if WritesNothing(r.assignment) then Approaching(r, f) + [Consumed]
    else Approaching(r, f) + Naming(r, f.guid) + Writes(r, f)
  }

  /** What may follow events that were allowed. */
  ghost predicate Follows(p: Process, events: seq<Event>, q: Process, calls: seq<Call>) {
    AllowedAll(p, events) && AfterAll(p, events) == q && CallsIn(events) == calls
  }

  lemma ThenCame(p: Process, events: seq<Event>, q: Process, calls: seq<Call>, e: Event)
    requires Follows(p, events, q, calls) && Allowed(q, e) && !e.Mutated?
    ensures Follows(p, events + [e], After(q, e), calls)
  {
    hide Allowed, After, AllowedAll, AfterAll, CallsIn, SeenIn;
    AllowedNext(p, events, e);
  }

  lemma {:induction false} ThenCalled(p: Process, events: seq<Event>, q: Process, calls: seq<Call>, more: seq<Call>)
    requires Follows(p, events, q, calls) && q.consumed && q.intent && Writing(q.view.state) && q.heard.willing && q.heard.open
    requires LinkCall in more && q.view.assignment.operation.ImportAndLink? ==> q.heard.again && q.heard.sure
    ensures Follows(p, events + Mutations(more), q.(mutated := q.mutated || more != []), calls + more)
    decreases |more|
  {
    hide AllowedAll, AfterAll, CallsIn, SeenIn, BackupIn, AllowedSave, ValidRecord;
    if more == [] {
      assert events + Mutations(more) == events && calls + more == calls;
    } else {
      var n := |more| - 1;
      ThenCalled(p, events, q, calls, more[..n]);
      var before := events + Mutations(more[..n]);
      AllowedNext(p, before, Mutated(more[n]));
      assert before + [Mutated(more[n])] == events + Mutations(more);
      assert calls + more[..n] + [more[n]] == calls + more;
    }
  }

  lemma PhasesAreValid(r: Record, guid: string)
    requires ValidRecord(r.(state := Creating)) && UsableGpo(guid)
    ensures ValidRecord(r.(state := Created, guid := guid)) && ValidRecord(r.(state := Importing, guid := guid))
  {
    hide ValidRecord, UsableGpo;
    GpoManaged.PhaseIsValid(r.(state := Creating), Created, guid);
    GpoManaged.PhaseIsValid(r.(state := Creating), Importing, guid);
  }

  lemma PilotApproaches(r: Record) returns (q: Process)
    requires r.state.Granted? && r.assignment.schema < 3
    ensures Follows(Loaded(r), GpoPilot.PILOT_APPROACH, q, []) && q == Loaded(r).(heard := q.heard) && AffirmedAround(q.heard)
  {
    hide Follows;
    var p := Loaded(r);
    NothingFollows(p);
    ThenCame(p, [], p, [], Authorised(true));
    q := After(p, Authorised(true));
    ThenCame(p, [] + [Authorised(true)], q, [], Checked);
    q := After(q, Checked);
    ThenCame(p, [] + [Authorised(true)] + [Checked], q, [], Authorised(true));
    q := After(q, Authorised(true));
    assert [] + [Authorised(true)] + [Checked] + [Authorised(true)] == GpoPilot.PILOT_APPROACH;
  }

  lemma NothingFollows(p: Process)
    ensures Follows(p, [], p, [])
  {
  }

  lemma ManagedApproaches(r: Record, f: Findings) returns (q: Process)
    requires r.state.Granted? && r.assignment.schema >= 3 && r.assignment.expected.Some?
    ensures Follows(Loaded(r), Approaching(r, f), q, []) && q == Loaded(r).(heard := q.heard)
    ensures AffirmedAround(q.heard) && q.heard.looks == q.heard.matches == 2
  {
    hide Follows;
    var p, o, state := Loaded(r), r.assignment.operation, r.assignment.expected.value;
    NothingFollows(p);
    ThenCame(p, [], p, [], Authorised(true));
    q := After(p, Authorised(true));
    var e := [] + [Authorised(true)];
    ThenCame(p, e, q, [], Seen(state));
    e, q := e + [Seen(state)], After(q, Seen(state));
    ThenCame(p, e, q, [], Sized(true));
    e := e + [Sized(true)];
    var t := e;
    if ImportOperation(o) || o.ActivateManaged? {
      ThenCame(p, e, q, [], Checked);
      e, q := e + [Checked], After(q, Checked);
    } else {
      assert e + [] == e;
    }
    var u := e;
    if o.ActivateManaged? || o.DeleteManaged? {
      ThenCame(p, e, q, [], BackedUp(f.backup));
      e, q := e + [BackedUp(f.backup)], After(q, BackedUp(f.backup));
    } else {
      assert e + [] == e;
    }
    var v := e;
    ThenCame(p, e, q, [], Seen(state));
    e, q := e + [Seen(state)], After(q, Seen(state));
    ThenCame(p, e, q, [], Authorised(true));
    q := After(q, Authorised(true));
    assert t == [Authorised(true), Seen(state), Sized(true)];
    GpoManaged.ApproachIs(o, state, true, f.backup, u, v, e + [Authorised(true)]);
  }

  /** After the approach: the approval is used, the intent saved, and authority affirmed once more. */
  lemma Enters(r: Record, before: seq<Event>, q: Process) returns (n: Process)
    requires r.state.Granted? && ValidRecord(r.(state := Creating)) && Follows(Loaded(r), before, q, [])
    requires q == Loaded(r).(heard := q.heard) && AffirmedAround(q.heard)
    requires r.assignment.schema >= 3 ==> q.heard.looks == q.heard.matches == 2
    ensures Follows(Loaded(r), before + [Consumed, Saved(r.(state := Creating)), Authorised(true)], n, [])
    ensures n.view == r.(state := Creating) && n.consumed && n.intent && n.heard.willing && n.heard.open
  {
    hide Follows, ValidRecord;
    var p, creating := Loaded(r), r.(state := Creating);
    ThenCame(p, before, q, [], Consumed);
    n := After(q, Consumed);
    ThenCame(p, before + [Consumed], n, [], Saved(creating));
    n := After(n, Saved(creating));
    ThenCame(p, before + [Consumed] + [Saved(creating)], n, [], Authorised(true));
    n := After(n, Authorised(true));
    assert before + [Consumed] + [Saved(creating)] + [Authorised(true)] == before + [Consumed, Saved(creating), Authorised(true)];
  }

  /** The GPO gets its name on disk. */
  lemma Names(r: Record, before: seq<Event>, q: Process, guid: string) returns (n: Process)
    requires r.state.Granted? && ValidRecord(r.(state := Creating)) && UsableGpo(guid)
    requires var e := before + [Consumed, Saved(r.(state := Creating)), Authorised(true)]; Follows(Loaded(r), e, q, [])
    requires q.view == r.(state := Creating) && q.consumed && q.intent && q.heard.willing && q.heard.open
    ensures Follows(Loaded(r), before + Naming(r, guid), n, if r.assignment.schema < 3 || r.assignment.gpoGuid == "" then [CreateCall] else [])
    ensures n.view == r.(state := Created, guid := guid) && n.consumed && n.intent && n.heard.willing && n.heard.open && ValidRecord(n.view)
  {
    hide Follows, ValidRecord, UsableGpo;
    PhasesAreValid(r, guid);
    var p, created := Loaded(r), Saved(r.(state := Created, guid := guid));
    var e := before + [Consumed, Saved(r.(state := Creating)), Authorised(true)];
    n := q;
    if r.assignment.schema < 3 || r.assignment.gpoGuid == "" {
      ThenCalled(p, e, q, [], [CreateCall]);
      n := q.(mutated := true);
      assert Mutations([CreateCall]) == [Mutated(CreateCall)] && [] + [CreateCall] == [CreateCall];
      ThenCame(p, e + [Mutated(CreateCall)], n, [CreateCall], Event.Named(guid));
      ThenCame(p, e + [Mutated(CreateCall)] + [Event.Named(guid)], n, [CreateCall], created);
      assert e + [Mutated(CreateCall)] + [Event.Named(guid)] + [created] == before + Naming(r, guid);
    } else {
      ThenCame(p, e, n, [], created);
      assert e + [created] == before + Naming(r, guid);
    }
    n := After(n, created);
  }

  lemma PilotWrites(r: Record, f: Findings, before: seq<Event>, q: Process)
    requires r.assignment.schema < 3 && ValidRecord(r.(state := Importing, guid := f.guid)) && Follows(Loaded(r), before, q, [CreateCall])
    requires q.view == r.(state := Created, guid := f.guid) && q.consumed && q.intent && q.heard.willing && q.heard.open
    requires r.assignment.operation.CreatePilot?
    ensures AllowedAll(Loaded(r), before + Writes(r, f)) && CallsIn(before + Writes(r, f)) == GpoPilot.PILOT_CALLS
  {
    hide ValidRecord, AllowedAll, AfterAll, CallsIn;
    var p, importing := Loaded(r), Saved(r.(state := Importing, guid := f.guid));
    var e, n := before + Mutations([DisableCall, IdentifyCall]), q.(mutated := true);
    ThenCalled(p, before, q, [CreateCall], [DisableCall, IdentifyCall]);
    ThenCame(p, e, n, [CreateCall, DisableCall, IdentifyCall], importing);
    ThenCalled(p, e + [importing], After(n, importing), [CreateCall, DisableCall, IdentifyCall], [ImportCall, DisableCall]);
    assert e + [importing] + Mutations([ImportCall, DisableCall]) == before + Writes(r, f);
  }

  lemma ManagedWrites(r: Record, f: Findings, before: seq<Event>, q: Process, made: seq<Call>)
    requires r.assignment.schema >= 3 && ValidRecord(r.(state := Importing, guid := f.guid)) && Follows(Loaded(r), before, q, made)
    requires q.view == r.(state := Created, guid := f.guid) && q.consumed && q.intent && q.heard.willing && q.heard.open
    ensures AllowedAll(Loaded(r), before + Writes(r, f)) && CallsIn(before + Writes(r, f)) == made + GpoManaged.OperationCalls(r.assignment)
  {
    hide ValidRecord, AllowedAll, AfterAll, CallsIn, GpoManaged.PreparationCalls;
    var p, j, importing := Loaded(r), r.assignment, Saved(r.(state := Importing, guid := f.guid));
    ThenCame(p, before, q, made, importing);
    var e, n := before + [importing], After(q, importing);
    if j.operation.ImportAndLink? {
      LinkedWrites(r, f, e, n, made);
      assert e + (Mutations(GpoManaged.PreparationCalls(j)) + [Seen(f.prepared), importing, Authorised(true)] + Mutations([LinkCall]))
             == before + Writes(r, f);
    } else {
      NoLinkBesides(j);
      ThenCalled(p, e, n, made, GpoManaged.OperationCalls(j));
      assert e + Mutations(GpoManaged.OperationCalls(j)) == before + Writes(r, f);
    }
  }

  lemma NoLinkBesides(j: Job)
    ensures LinkCall !in GpoManaged.PreparationCalls(j)
    ensures !j.operation.ImportAndLink? && !j.operation.LinkManaged? ==> LinkCall !in GpoManaged.OperationCalls(j)
  {
  }

  lemma LinkedWrites(r: Record, f: Findings, e: seq<Event>, q: Process, made: seq<Call>)
    requires r.assignment.operation.ImportAndLink? && ValidRecord(q.view) && Follows(Loaded(r), e, q, made)
    requires q.view == r.(state := Importing, guid := f.guid) && q.consumed && q.intent && q.heard.willing && q.heard.open
    ensures var filled := GpoManaged.PreparationCalls(r.assignment);
            var all := e + (Mutations(filled) + [Seen(f.prepared), Saved(q.view), Authorised(true)] + Mutations([LinkCall]));
            AllowedAll(Loaded(r), all) && CallsIn(all) == made + (filled + [LinkCall])
  {
    hide ValidRecord, AllowedAll, AfterAll, CallsIn, GpoManaged.PreparationCalls, Follows;
    NoLinkBesides(r.assignment);
    var p, filled, importing := Loaded(r), GpoManaged.PreparationCalls(r.assignment), Saved(q.view);
    var t, n := e + Mutations(filled), q.(mutated := q.mutated || filled != []);
    ThenCalled(p, e, q, made, filled);
    ThenCame(p, t, n, made + filled, Seen(f.prepared));
    n := After(n, Seen(f.prepared));
    ThenCame(p, t + [Seen(f.prepared)], n, made + filled, importing);
    n := After(n, importing);
    ThenCame(p, t + [Seen(f.prepared)] + [importing], n, made + filled, Authorised(true));
    n := After(n, Authorised(true));
    var u := t + [Seen(f.prepared)] + [importing] + [Authorised(true)];
    ThenCalled(p, u, n, made + filled, [LinkCall]);
    Unfolds(p, u + Mutations([LinkCall]), made + filled + [LinkCall]);
    assert u + Mutations([LinkCall]) == e + (Mutations(filled) + [Seen(f.prepared), importing, Authorised(true)] + Mutations([LinkCall]));
    Regroup(made, filled, [LinkCall]);
  }

  lemma Unfolds(p: Process, events: seq<Event>, calls: seq<Call>)
    requires exists q :: Follows(p, events, q, calls)
    ensures AllowedAll(p, events) && CallsIn(events) == calls
  {
  }

  lemma CarriedIsAllowed(r: Record, f: Findings)
    requires r.state.Granted? && ValidRecord(r.(state := Creating)) && UsableGpo(f.guid)
    requires if r.assignment.schema < 3 then r.assignment.operation.CreatePilot? else r.assignment.expected.Some?
    ensures AllowedAll(Loaded(r), Carried(r, f)) && CallsIn(Carried(r, f)) == CallsFor(r.assignment)
  {
    hide ValidRecord, UsableGpo, AllowedAll, AfterAll, CallsIn, Follows, Naming, Writes, Approaching, Adoption, GpoManaged.OperationCalls;
    var j := r.assignment;
    var q;
    if j.schema < 3 { q := PilotApproaches(r); IsPilotApproach(r, f); } else { q := ManagedApproaches(r, f); }
    var before := Approaching(r, f);
    if WritesNothing(j) {
      ThenCame(Loaded(r), before, q, [], Consumed);
      Unfolds(Loaded(r), before + [Consumed], []);
      GpoManaged.PreparedOnlyCallsNothing(j);
    } else {
      q := Enters(r, before, q);
      q := Names(r, before, q, f.guid);
      PhasesAreValid(r, f.guid);
      if j.schema < 3 { PilotWrites(r, f, before + Naming(r, f.guid), q); }
      else { ManagedWrites(r, f, before + Naming(r, f.guid), q, GpoManaged.CreationCalls(j)); }
    }
  }

  lemma IsPilotApproach(r: Record, f: Findings)
    requires r.assignment.schema < 3
    ensures Approaching(r, f) == GpoPilot.PILOT_APPROACH
  {
  }

  /** What is found fits the job: a usable GPO, the approved one if there is one, a sound backup, and a prepared state to link. */
  predicate Fitting(j: Job, f: Findings) {
    && UsableGpo(f.guid) && (j.gpoGuid != "" ==> f.guid == j.gpoGuid)
    && (j.schema >= 3 ==> GpoManaged.BackupMatches(j.operation, f.backup))
    && (j.schema >= 3 && j.operation.ImportAndLink? && j.expected.Some? ==>
          GpoManaged.PreparedProblem(j, j.expected.value, f.prepared, f.guid).None?)
  }

  lemma ApprovableJob(job: Job, uri: string, approval: Option<Approval>)
    requires Approvable(job, uri, approval)
    ensures if job.schema < 3 then job.operation.CreatePilot? else job.expected.Some?
  {
    hide ValidSnapshot, ValidApproval, Clean;
  }

  /**
   Any approvable job, of any schema, can be claimed, approved, loaded by a worker and carried out: a run exists in which
   the worker that used the approval makes exactly the calls of the operation, in order, with every reading, question and
   save between them, whatever fitting things it finds.
   */
  lemma DirectoryIsReached(job: Job, uri: string, approval: Option<Approval>, f: Findings) returns (steps: seq<Step>)
    requires Approvable(job, uri, approval) && Fitting(job, f)
    ensures var w := Run(BLANK, steps); var claimed := Claimed(job, uri, approval);
            && w.calls == MadeBy(Intent(job, 2), CallsFor(job))
            && w.worker == Up(AfterAll(Loaded(claimed), Carried(claimed, f)))
  {
    hide ValidRecord, Approvable, TextFor, UsableGpo, Carried, CallsFor, AllowedAll, AfterAll, CallsIn, Invariant, Run,
         GpoManaged.BackupMatches, GpoManaged.PreparedProblem;
    var claimed := Claimed(job, uri, approval);
    GrantedRecords(job, uri, approval);
    ApprovableJob(job, uri, approval);
    CarriedIsAllowed(claimed, f);
    steps := ClaimIsReached(job, uri, approval);
    BlankHolds();
    RunHolds(BLANK, steps);
    var more := LoadedTraceIsRun(Run(BLANK, steps), Carried(claimed, f));
    RunAppend(BLANK, steps, more);
    steps := steps + more;
  }
}
