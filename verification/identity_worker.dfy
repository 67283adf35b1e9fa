/**
 The generation-ticketed validation worker: callers submit and retire under a
 mutex, one thread validates and publishes, readers look at the atomics without
 the mutex, and a stop may come at any moment. Every step below is one critical
 section or one atomic store; runs are all their interleavings. `Fresh` is what
 a reader answers when nothing moves between its loads; `ReadsFresh` lets the
 worker run between any two of them.
 */
module IdentityWorker {
  import opened Wrappers

  type Operation = nat

  /** What the thread is doing; `seen` is the last generation it picked. */
  datatype Thread =
    | Waiting(seen: nat)
    | Picked(generation: nat, operation: Operation)
    | Validating(generation: nat, operation: Operation, startedAt: int)
    | Clearing(generation: nat, stage: nat)
    | Exited

  datatype Outcome = Outcome(generation: nat, operation: Operation, startedAt: int, succeeded: bool)

  /** The shared fields, the thread, the clock, and what happened: who submitted what, and what was published. */
  datatype State = State(stopped: bool, generation: nat, successGeneration: nat, failedGeneration: nat, lastSuccess: int,
                         operation: Option<Operation>, thread: Thread, clock: int,
                         submitted: map<nat, Operation>, published: seq<Outcome>)

  datatype Step =
    | Submit(operation: Operation)
    | Retire(ticket: nat)
    | Pick
    | Start
    | Finish(succeeded: bool)
    | StoreNext
    | Stop
    | Tick(elapsed: nat)

  const INITIAL := State(false, 0, 0, 0, 0, None, Waiting(0), 0, map[], [])

  predicate Cancelled(s: State, generation: nat) { s.stopped || s.generation != generation }

  /** The stores of a published success hold the mutex until the last of them. */
  predicate Locked(s: State) { s.thread.Clearing? }

  function AfterSubmit(s: State, op: Operation): State {
    if s.stopped || Locked(s) then s
    else s.(operation := Some(op), generation := s.generation + 1, submitted := s.submitted[s.generation + 1 := op])
  }

  function AfterRetire(s: State, ticket: nat): State {
    if s.generation != ticket || Locked(s) then s else s.(operation := None, generation := s.generation + 1)
  }

  function AfterPick(s: State): State {
    if !s.thread.Waiting? then s
    else if s.stopped then s.(thread := Exited)
    else match s.operation
      case None => s.(thread := Waiting(s.generation))
      case Some(op) => s.(thread := Picked(s.generation, op))
  }

  function AfterStart(s: State): State {
    if s.thread.Picked? then s.(thread := Validating(s.thread.generation, s.thread.operation, s.clock)) else s
  }

  function AfterFinish(s: State, succeeded: bool): State {
    if !s.thread.Validating? then s
    else
      var run := s.thread;
      if Cancelled(s, run.generation) then s.(thread := Waiting(run.generation))
      else
        var outcome := Outcome(run.generation, run.operation, run.startedAt, succeeded);
        if succeeded then s.(lastSuccess := run.startedAt, thread := Clearing(run.generation, 1), published := s.published + [outcome])
        else s.(failedGeneration := run.generation, thread := Waiting(run.generation), published := s.published + [outcome])
  }

  function AfterStore(s: State): State {
    if !s.thread.Clearing? then s
    else if s.thread.stage == 1 then s.(successGeneration := s.thread.generation, thread := Clearing(s.thread.generation, 2))
    else s.(failedGeneration := 0, thread := Waiting(s.thread.generation))
  }

  function Next(s: State, step: Step): State {
    match step
    case Submit(op) => AfterSubmit(s, op)
    case Retire(ticket) => AfterRetire(s, ticket)
    case Pick => AfterPick(s)
    case Start => AfterStart(s)
    case Finish(succeeded) => AfterFinish(s, succeeded)
    case StoreNext => AfterStore(s)
    case Stop => s.(stopped := true)
    case Tick(elapsed) => s.(clock := s.clock + elapsed)
  }

  function Run(s: State, steps: seq<Step>): State
    decreases |steps|
  {
    if steps == [] then s else Run(Next(s, steps[0]), steps[1..])
  }

  predicate Fresh(s: State, ticket: nat, now: int) {
    && ticket != 0 && !s.stopped && s.generation == ticket && s.failedGeneration != ticket && s.successGeneration == ticket
    && now - s.lastSuccess < 10000
  }

  predicate Failed(s: State, ticket: nat) {
    ticket == 0 || s.stopped || s.generation != ticket || s.failedGeneration == ticket
  }

  /** The last outcome published for a ticket. */
  function Latest(published: seq<Outcome>, ticket: nat): Option<Outcome> {
    if published == [] then None
    else if published[|published| - 1].generation == ticket then Some(published[|published| - 1])
    else Latest(published[..|published| - 1], ticket)
  }

  // ----- What always holds -----

  ghost predicate Own(s: State, generation: nat, op: Operation) {
    0 < generation <= s.generation && generation in s.submitted && s.submitted[generation] == op
  }

  /** The success the atomics stand for. */
  ghost predicate Witnessed(s: State, ticket: nat) {
    && Latest(s.published, ticket).Some?
    && var o := Latest(s.published, ticket).value;
    && o.succeeded && o.startedAt == s.lastSuccess && o.startedAt <= s.clock && Own(s, ticket, o.operation)
  }

  ghost predicate ThreadHolds(s: State) {
    match s.thread
    case Waiting(_) => true
    case Picked(g, op) => Own(s, g, op)
    case Validating(g, op, startedAt) => Own(s, g, op) && startedAt <= s.clock
    case Clearing(g, stage) => 0 < g == s.generation && 1 <= stage <= 2 && Witnessed(s, g) && (stage == 2 ==> s.successGeneration == g)
    case Exited => true
  }

  /** While the last outcome of the current ticket is a failure, the ticket is marked as failed. */
  ghost predicate FailureShows(s: State) {
    var latest := Latest(s.published, s.generation);
    latest.Some? && !latest.value.succeeded ==> s.failedGeneration == s.generation
  }

  ghost predicate Invariant(s: State) {
    && s.successGeneration <= s.generation
    && (forall g | g in s.submitted :: 0 < g <= s.generation)
    && (s.operation.Some? ==> Own(s, s.generation, s.operation.value))
    && (0 < s.generation == s.successGeneration && s.failedGeneration != s.generation ==> Witnessed(s, s.generation))
    && (forall k | 0 <= k < |s.published| :: s.published[k].generation <= s.generation)
    && FailureShows(s)
    && ThreadHolds(s)
  }

  lemma {:induction false} NoLatest(published: seq<Outcome>, ticket: nat)
    requires forall k | 0 <= k < |published| :: published[k].generation != ticket
    ensures Latest(published, ticket).None?
  {
    if published != [] { NoLatest(published[..|published| - 1], ticket); }
  }

  lemma SubmitHolds(s: State, op: Operation)
    requires Invariant(s)
    ensures Invariant(AfterSubmit(s, op))
  {
    hide Latest;
    NoLatest(s.published, s.generation + 1);
  }

  lemma RetireHolds(s: State, ticket: nat)
    requires Invariant(s)
    ensures Invariant(AfterRetire(s, ticket))
  {
    hide Latest;
    NoLatest(s.published, s.generation + 1);
  }

  lemma PickHolds(s: State)
    requires Invariant(s)
    ensures Invariant(AfterPick(s))
  {
    hide Latest, Witnessed, FailureShows;
    assert Witnessed(AfterPick(s), s.generation) == Witnessed(s, s.generation) && FailureShows(AfterPick(s)) == FailureShows(s) by {
      SameOutcomes(s, AfterPick(s));
    }
  }

  lemma StartHolds(s: State)
    requires Invariant(s)
    ensures Invariant(AfterStart(s))
  {
    hide Latest, Witnessed, FailureShows;
    SameOutcomes(s, AfterStart(s));
  }

  /** What is known of the atomics does not depend on the thread, and time only passes. */
  lemma SameOutcomes(s: State, t: State)
    requires t == s.(thread := t.thread, stopped := t.stopped, clock := t.clock) && s.clock <= t.clock
    ensures forall ticket | Witnessed(s, ticket) :: Witnessed(t, ticket)
    ensures s.clock == t.clock ==> forall ticket :: Witnessed(s, ticket) == Witnessed(t, ticket)
    ensures FailureShows(t) == FailureShows(s)
  {
    hide Latest;
  }

  lemma PassHolds(s: State, stop: bool, elapsed: nat)
    requires Invariant(s)
    ensures Invariant(s.(stopped := s.stopped || stop, clock := s.clock + elapsed))
  {
    hide Latest, Witnessed, FailureShows;
    SameOutcomes(s, s.(stopped := s.stopped || stop, clock := s.clock + elapsed));
  }

  lemma FinishHolds(s: State, succeeded: bool)
    requires Invariant(s) && s.thread.Validating?
    ensures Invariant(AfterFinish(s, succeeded))
  {
    hide Latest;
    LatestIsLast(s.published, Outcome(s.thread.generation, s.thread.operation, s.thread.startedAt, succeeded));
  }

  lemma StoreHolds(s: State)
    requires Invariant(s)
    ensures Invariant(AfterStore(s))
  {
    hide Latest;
  }

  lemma StepHolds(s: State, step: Step)
    requires Invariant(s)
    ensures Invariant(Next(s, step))
  {
    hide Invariant, AfterSubmit, AfterRetire, AfterPick, AfterStart, AfterStore;
    match step
    case Submit(op) => SubmitHolds(s, op);
    case Retire(ticket) => RetireHolds(s, ticket);
    case Pick => PickHolds(s);
    case Start => StartHolds(s);
    case Finish(succeeded) => if s.thread.Validating? { FinishHolds(s, succeeded); }
    case StoreNext => StoreHolds(s);
    case Stop => PassHolds(s, true, 0);
    case Tick(elapsed) => PassHolds(s, false, elapsed);
  }

  lemma {:induction false} LatestIsOwn(published: seq<Outcome>, ticket: nat)
    ensures Latest(published, ticket).Some? ==> Latest(published, ticket).value.generation == ticket
  {
    if published != [] { LatestIsOwn(published[..|published| - 1], ticket); }
  }

  lemma LatestIsLast(published: seq<Outcome>, o: Outcome)
    ensures Latest(published + [o], o.generation) == Some(o)
  {
  }

  lemma {:induction false} RunHolds(s: State, steps: seq<Step>)
    requires Invariant(s)
    ensures Invariant(Run(s, steps))
    decreases |steps|
  {
    hide Invariant, Next;
    if steps != [] {
      StepHolds(s, steps[0]);
      RunHolds(Next(s, steps[0]), steps[1..]);
    }
  }

  lemma {:induction false} LatestIsPublished(published: seq<Outcome>, ticket: nat)
    requires Latest(published, ticket).Some?
    ensures exists k :: 0 <= k < |published| && published[k] == Latest(published, ticket).value && published[k].generation == ticket
                        && forall j | k < j < |published| :: published[j].generation != ticket
  {
    var n := |published| - 1;
    if published[n].generation != ticket {
      LatestIsPublished(published[..n], ticket);
      var k :| 0 <= k < n && published[..n][k] == Latest(published, ticket).value && published[..n][k].generation == ticket
               && forall j | k < j < n :: published[..n][j].generation != ticket;
      forall j | k < j < |published| ensures published[j].generation != ticket {
        if j < n { assert published[j] == published[..n][j]; }
      }
      assert published[k] == published[..n][k];
    }
  }

  // ----- Main results, over every interleaving -----

  /**
   A fresh ticket is the current generation, and the operation that was submitted for it succeeded in a validation
   that began less than ten seconds ago and is the last outcome published for it.
   */
  lemma FreshMeansValidated(steps: seq<Step>, ticket: nat, now: int)
    requires Fresh(Run(INITIAL, steps), ticket, now)
    ensures var s := Run(INITIAL, steps);
            && ticket == s.generation && ticket in s.submitted
            && exists k :: 0 <= k < |s.published|
                 && s.published[k] == Outcome(ticket, s.submitted[ticket], s.published[k].startedAt, true)
                 && s.published[k].startedAt <= s.clock && now - s.published[k].startedAt < 10000
                 && forall j | k < j < |s.published| :: s.published[j].generation != ticket
  {
    RunHolds(INITIAL, steps);
    LatestIsPublished(Run(INITIAL, steps).published, ticket);
  }

  /** Every outcome is of the operation submitted for its generation; neither generations nor starts go back. */
  ghost predicate Ordered(s: State) {
    && (forall k | 0 <= k < |s.published| ::
          var o := s.published[k];
          && Own(s, o.generation, o.operation) && o.startedAt <= s.clock
          && (s.thread.Validating? ==> o.startedAt <= s.thread.startedAt))
    && (forall i, j | 0 <= i < j < |s.published| ::
          s.published[i].generation <= s.published[j].generation && s.published[i].startedAt <= s.published[j].startedAt)
  }

  lemma OrderedHolds(s: State, step: Step)
    requires Invariant(s) && Ordered(s)
    ensures Ordered(Next(s, step))
  {
    hide Latest, Witnessed, FailureShows;
  }

  lemma {:induction false} RunIsOrdered(s: State, steps: seq<Step>)
    requires Invariant(s) && Ordered(s)
    ensures Ordered(Run(s, steps))
    decreases |steps|
  {
    hide Invariant, Ordered, Next;
    if steps != [] {
      StepHolds(s, steps[0]);
      OrderedHolds(s, steps[0]);
      RunIsOrdered(Next(s, steps[0]), steps[1..]);
    }
  }

  /**
   In every interleaving each published outcome is of the operation that was submitted for its ticket, and a
   validation that was superseded never publishes after one of a later ticket.
   */
  lemma PublishedInOrder(steps: seq<Step>, i: nat, j: nat)
    requires i <= j < |Run(INITIAL, steps).published|
    ensures var s := Run(INITIAL, steps); var earlier, later := s.published[i], s.published[j];
            && earlier.generation in s.submitted && s.submitted[earlier.generation] == earlier.operation
            && earlier.generation <= later.generation <= s.generation
            && earlier.startedAt <= later.startedAt <= s.clock
  {
    hide Run;
    RunIsOrdered(INITIAL, steps);
  }

  lemma GenerationGrows(s: State, step: Step)
    ensures Next(s, step).generation >= s.generation && (s.stopped ==> Next(s, step).stopped)
  {
  }

  lemma {:induction false} GenerationOnlyGrows(s: State, steps: seq<Step>)
    ensures Run(s, steps).generation >= s.generation && (s.stopped ==> Run(s, steps).stopped)
    decreases |steps|
  {
    hide Next;
    if steps != [] {
      GenerationGrows(s, steps[0]);
      GenerationOnlyGrows(Next(s, steps[0]), steps[1..]);
    }
  }

  /** A ticket that was superseded or retired, or whose worker was stopped, is never fresh again and reads as failed. */
  lemma NeverFreshAgain(s: State, ticket: nat, steps: seq<Step>, now: int)
    requires s.generation > ticket || s.stopped
    ensures !Fresh(Run(s, steps), ticket, now) && Failed(Run(s, steps), ticket)
  {
    GenerationOnlyGrows(s, steps);
  }

  lemma RetiredIsOver(s: State, ticket: nat, steps: seq<Step>, now: int)
    requires !Locked(s) && ticket <= s.generation
    ensures !Fresh(Run(Next(s, Retire(ticket)), steps), ticket, now)
  {
    NeverFreshAgain(Next(s, Retire(ticket)), ticket, steps, now);
  }

  lemma SupersededIsOver(s: State, op: Operation, ticket: nat, steps: seq<Step>, now: int)
    requires !Locked(s) && ticket <= s.generation
    ensures !Fresh(Run(Next(s, Submit(op)), steps), ticket, now)
  {
    NeverFreshAgain(Next(s, Submit(op)), ticket, steps, now);
  }

  /**
   In every interleaving, from the moment a failure is published for a ticket until a later success is published for it,
   the ticket is not fresh and reads as failed.
   */
  lemma FailureIsSeen(steps: seq<Step>, ticket: nat, now: int)
    requires var latest := Latest(Run(INITIAL, steps).published, ticket); latest.Some? && !latest.value.succeeded
    ensures !Fresh(Run(INITIAL, steps), ticket, now) && Failed(Run(INITIAL, steps), ticket)
  {
    hide Run;
    RunHolds(INITIAL, steps);
  }

  /** While the last outcome of the current ticket is a success and all its stores are done, the atomics show it. */
  ghost predicate SuccessShows(s: State) {
    var latest := Latest(s.published, s.generation);
    latest.Some? && latest.value.succeeded && !Locked(s) ==>
      s.successGeneration == s.generation && s.failedGeneration != s.generation && s.lastSuccess == latest.value.startedAt
  }

  lemma SuccessShowsStill(s: State, step: Step)
    requires Invariant(s) && SuccessShows(s)
    ensures SuccessShows(Next(s, step))
  {
    hide Latest;
    NoLatest(s.published, s.generation + 1);
    if s.thread.Validating? && step.Finish? {
      LatestIsLast(s.published, Outcome(s.thread.generation, s.thread.operation, s.thread.startedAt, step.succeeded));
    }
  }

  lemma {:induction false} RunShowsSuccess(s: State, steps: seq<Step>)
    requires Invariant(s) && SuccessShows(s)
    ensures Invariant(Run(s, steps)) && SuccessShows(Run(s, steps))
    decreases |steps|
  {
    hide Invariant, SuccessShows, Next;
    if steps != [] {
      StepHolds(s, steps[0]);
      SuccessShowsStill(s, steps[0]);
      RunShowsSuccess(Next(s, steps[0]), steps[1..]);
    }
  }

  /**
   In every interleaving, outside the stores of a success: a ticket is fresh exactly when the worker is not stopped, the
   ticket is the current one, its last outcome is a success, and that validation began less than ten seconds ago.
   */
  lemma FreshExactly(steps: seq<Step>, ticket: nat, now: int)
    requires !Locked(Run(INITIAL, steps))
    ensures var s := Run(INITIAL, steps); var latest := Latest(s.published, ticket);
            Fresh(s, ticket, now) <==>
              !s.stopped && ticket == s.generation && latest.Some? && latest.value.succeeded && now < latest.value.startedAt + 10000
  {
    hide Run, Latest;
    NoLatest(INITIAL.published, INITIAL.generation);
    RunShowsSuccess(INITIAL, steps);
    var s := Run(INITIAL, steps);
    if Latest(s.published, ticket).Some? { LatestIsPublished(s.published, ticket); RunIsOrdered(INITIAL, steps); }
  }

  /** Right after its success the current ticket is fresh for exactly the times before ten seconds from the start of the validation. */
  lemma FreshAfterSuccess(s: State, now: int)
    requires Invariant(s) && s.thread.Validating? && !Cancelled(s, s.thread.generation)
    ensures var t := Next(Next(Next(s, Finish(true)), StoreNext), StoreNext);
            Fresh(t, s.thread.generation, now) <==> now < s.thread.startedAt + 10000
  {
    hide Latest, Witnessed, FailureShows;
  }

  // ----- A reader that loads the atomics one by one -----

  /** What the worker does before a reader's first load, and between one load and the next. */
  datatype Gaps = Gaps(before: seq<Step>, toGeneration: seq<Step>, toFailed: seq<Step>, toSuccess: seq<Step>, toLast: seq<Step>)

  function AtStopped(g: Gaps): State { Run(INITIAL, g.before) }

  function AtGeneration(g: Gaps): State { Run(AtStopped(g), g.toGeneration) }

  function AtFailed(g: Gaps): State { Run(AtGeneration(g), g.toFailed) }

  function AtSuccess(g: Gaps): State { Run(AtFailed(g), g.toSuccess) }

  function AtLast(g: Gaps): State { Run(AtSuccess(g), g.toLast) }

  /** The answer of such a reader: each field as it was when it was loaded. */
  predicate ReadsFresh(g: Gaps, ticket: nat, now: int) {
    && ticket != 0 && !AtStopped(g).stopped && AtGeneration(g).generation == ticket && AtFailed(g).failedGeneration != ticket
    && AtSuccess(g).successGeneration == ticket && now - AtLast(g).lastSuccess < 10000
  }

  /** The last success published, of whatever ticket. */
  function LastSuccess(published: seq<Outcome>): Option<Outcome> {
    if published == [] then None
    else if published[|published| - 1].succeeded then Some(published[|published| - 1])
    else LastSuccess(published[..|published| - 1])
  }

  ghost predicate Succeeded(published: seq<Outcome>, ticket: nat) {
    exists k :: 0 <= k < |published| && published[k].succeeded && published[k].generation == ticket
  }

  /** The time is that of the last success, and the ticket marked as successful has one. */
  ghost predicate Recorded(s: State) {
    && (LastSuccess(s.published).Some? ==> s.lastSuccess == LastSuccess(s.published).value.startedAt)
    && (s.successGeneration != 0 ==> Succeeded(s.published, s.successGeneration))
    && (s.thread.Clearing? ==> Succeeded(s.published, s.thread.generation))
  }

  lemma SuccessStays(published: seq<Outcome>, o: Outcome, ticket: nat)
    ensures Succeeded(published, ticket) ==> Succeeded(published + [o], ticket)
    ensures o.succeeded ==> Succeeded(published + [o], o.generation)
    ensures LastSuccess(published + [o]) == if o.succeeded then Some(o) else LastSuccess(published)
  {
    assert (published + [o])[..|published|] == published;
    if k :| 0 <= k < |published| && published[k].succeeded && published[k].generation == ticket {
      assert (published + [o])[k] == published[k];
    }
    assert (published + [o])[|published|] == o;
  }

  lemma RecordedHolds(s: State, step: Step)
    requires Recorded(s)
    ensures Recorded(Next(s, step))
  {
    hide Succeeded, LastSuccess;
    if s.thread.Validating? && step.Finish? {
      var o := Outcome(s.thread.generation, s.thread.operation, s.thread.startedAt, step.succeeded);
      SuccessStays(s.published, o, s.successGeneration);
    }
  }

  lemma {:induction false} RunIsRecorded(s: State, steps: seq<Step>)
    requires Invariant(s) && Ordered(s) && Recorded(s)
    ensures Invariant(Run(s, steps)) && Ordered(Run(s, steps)) && Recorded(Run(s, steps))
    decreases |steps|
  {
    hide Invariant, Ordered, Recorded, Next;
    if steps != [] {
      StepHolds(s, steps[0]);
      OrderedHolds(s, steps[0]);
      RecordedHolds(s, steps[0]);
      RunIsRecorded(Next(s, steps[0]), steps[1..]);
    }
  }

  lemma InitialHolds()
    ensures Invariant(INITIAL) && Ordered(INITIAL) && Recorded(INITIAL)
  {
  }

  lemma PublishedGrows(s: State, step: Step)
    ensures s.published <= Next(s, step).published
  {
  }

  lemma {:induction false} PublishedOnlyGrows(s: State, steps: seq<Step>)
    ensures s.published <= Run(s, steps).published
    decreases |steps|
  {
    hide Next;
    if steps != [] {
      PublishedGrows(s, steps[0]);
      PublishedOnlyGrows(Next(s, steps[0]), steps[1..]);
    }
  }

  lemma {:induction false} LastSuccessIsLast(published: seq<Outcome>)
    ensures match LastSuccess(published)
            case None => forall k | 0 <= k < |published| :: !published[k].succeeded
            case Some(o) => exists k :: 0 <= k < |published| && published[k] == o && o.succeeded
                              && forall j | k < j < |published| :: !published[j].succeeded
    decreases |published|
  {
    if published != [] && !published[|published| - 1].succeeded {
      var n := |published| - 1;
      LastSuccessIsLast(published[..n]);
      if LastSuccess(published).Some? {
        var k :| 0 <= k < n && published[..n][k] == LastSuccess(published).value
                 && forall j | k < j < n :: !published[..n][j].succeeded;
        forall j | k < j < |published| ensures !published[j].succeeded { if j < n { assert published[j] == published[..n][j]; } }
        assert published[k] == published[..n][k];
      } else {
        forall k | 0 <= k < n ensures !published[k].succeeded { assert published[k] == published[..n][k]; }
      }
    }
  }

  ghost predicate LaterSucceeded(published: seq<Outcome>, ticket: nat) {
    exists k :: 0 <= k < |published| && published[k].succeeded && published[k].generation > ticket
  }

  lemma LastSuccessIsLatest(published: seq<Outcome>, ticket: nat)
    requires Succeeded(published, ticket)
    requires forall i, j | 0 <= i < j < |published| :: published[i].generation <= published[j].generation
    ensures LastSuccess(published).Some? && LastSuccess(published).value in published && LastSuccess(published).value.generation >= ticket
    ensures LastSuccess(published).value.generation == ticket <==> !LaterSucceeded(published, ticket)
  {
    hide LastSuccess;
    LastSuccessIsLast(published);
    var mine :| 0 <= mine < |published| && published[mine].succeeded && published[mine].generation == ticket;
    var k :| 0 <= k < |published| && published[k] == LastSuccess(published).value && published[k].succeeded
             && forall j | k < j < |published| :: !published[j].succeeded;
    assert mine <= k;
    if j :| 0 <= j < |published| && published[j].succeeded && published[j].generation > ticket { assert j <= k; }
  }

  /**
   Whatever the worker does between the loads, a true answer says that the ticket was the current generation at the
   second load, that its last outcome by the third was no failure unless it was superseded, that its own operation had
   succeeded by the fourth, and that the last success published by the fifth began less than ten seconds ago. That
   success is the ticket's own exactly when no later ticket had one by then.
   */
  lemma ReadMeansValidated(g: Gaps, ticket: nat, now: int)
    requires ReadsFresh(g, ticket, now)
    ensures Succeeded(AtSuccess(g).published, ticket)
    ensures var read := Latest(AtFailed(g).published, ticket);
            AtFailed(g).generation == ticket && read.Some? ==> read.value.succeeded
    ensures var s := AtLast(g);
            && ticket in s.submitted && LastSuccess(s.published).Some?
            && var o := LastSuccess(s.published).value;
            && o.succeeded && o.generation in s.submitted && s.submitted[o.generation] == o.operation
            && o.startedAt <= s.clock && now - o.startedAt < 10000 && ticket <= o.generation <= s.generation
            && (o.generation == ticket <==> !LaterSucceeded(s.published, ticket))
  {
    hide Run, Invariant, Latest, LastSuccess, Succeeded, LaterSucceeded;
    InitialHolds();
    RunIsRecorded(INITIAL, g.before);
    RunIsRecorded(AtStopped(g), g.toGeneration);
    RunIsRecorded(AtGeneration(g), g.toFailed);
    RunIsRecorded(AtFailed(g), g.toSuccess);
    RunIsRecorded(AtSuccess(g), g.toLast);
    InvariantShowsFailure(AtFailed(g));
    PublishedOnlyGrows(AtSuccess(g), g.toLast);
    SuccessCarries(AtSuccess(g).published, AtLast(g).published, ticket);
    LastSuccessIsLatest(AtLast(g).published, ticket);
    SucceededIsSubmitted(AtLast(g), ticket);
    LastSuccessSucceeded(AtLast(g).published);
  }

  lemma InvariantShowsFailure(s: State)
    requires Invariant(s)
    ensures FailureShows(s)
  {
  }

  lemma SuccessCarries(before: seq<Outcome>, after: seq<Outcome>, ticket: nat)
    requires before <= after && Succeeded(before, ticket)
    ensures Succeeded(after, ticket)
  {
    var k :| 0 <= k < |before| && before[k].succeeded && before[k].generation == ticket;
    assert after[k] == before[k];
  }

  lemma SucceededIsSubmitted(s: State, ticket: nat)
    requires Ordered(s) && Succeeded(s.published, ticket)
    ensures ticket in s.submitted
  {
  }

  lemma {:induction false} LastSuccessSucceeded(published: seq<Outcome>)
    ensures LastSuccess(published).Some? ==> LastSuccess(published).value.succeeded
  {
    if published != [] { LastSuccessSucceeded(published[..|published| - 1]); }
  }

  /** A reader of ticket 1 that is held up before its last load while ticket 2 is submitted and its validation succeeds. */
  const HELD_UP := Gaps([Submit(7), Pick, Start, Finish(true), StoreNext, StoreNext], [], [], [],
                        [Submit(8), Tick(20000), Pick, Start, Finish(true)])

  /** Such a reader takes the time of ticket 2 for that of ticket 1, whose only validation began twenty seconds ago. */
  lemma LaterSuccessIsRead()
    ensures ReadsFresh(HELD_UP, 1, 20000)
    ensures AtLast(HELD_UP).published == [Outcome(1, 7, 0, true), Outcome(2, 8, 20000, true)]
    ensures !Fresh(AtLast(HELD_UP), 1, 20000)
  {
    assert AtSuccess(HELD_UP) == State(false, 1, 1, 0, 0, Some(7), Waiting(1), 0, map[1 := 7], [Outcome(1, 7, 0, true)]);
  }

  // ----- The class -----

  /** The worker's methods; the thread's critical sections and stores are methods of their own. */
  class Worker {
    var stopped: bool
    var generation: nat
    var successGeneration: nat
    var failedGeneration: nat
    var lastSuccess: int
    var operation: Option<Operation>
    var thread: Thread
    var clock: int
    ghost var submitted: map<nat, Operation>
    ghost var published: seq<Outcome>

    constructor ()
      ensures Valid() && Value() == INITIAL
    {
      stopped, generation, successGeneration, failedGeneration, lastSuccess := false, 0, 0, 0, 0;
      operation, thread, clock, submitted, published := None, Waiting(0), 0, map[], [];
    }

    /** The fields are those of a state that a run can reach. */
    ghost predicate Valid()
      reads this
    {
      Invariant(Value())
    }

    ghost function Value(): State
      reads this
    {
      State(stopped, generation, successGeneration, failedGeneration, lastSuccess, operation, thread, clock, submitted, published)
    }

    method SubmitOperation(op: Operation) returns (ticket: nat)
      requires Valid() && !thread.Clearing?
      modifies this
      ensures Valid()
      ensures Value() == Next(old(Value()), Submit(op))
      ensures ticket == if old(stopped) then 0 else generation
    {
      hide Invariant, Latest;
      StepHolds(Value(), Submit(op));
      if stopped { return 0; }
      operation := Some(op);
      generation := generation + 1;
      submitted := submitted[generation := op];
      ticket := generation;
    }

    method RetireTicket(ticket: nat)
      requires Valid() && !thread.Clearing?
      modifies this
      ensures Valid()
      ensures Value() == Next(old(Value()), Retire(ticket))
    {
      hide Invariant, Latest;
      StepHolds(Value(), Retire(ticket));
      if generation != ticket { return; }
      operation := None;
      generation := generation + 1;
    }

    /** True only for the current ticket, when its own operation was the last to be published, succeeded, and began recently. */
    method IsFresh(ticket: nat, now: int) returns (b: bool)
      requires Valid()
      ensures b == Fresh(Value(), ticket, now)
      ensures b ==> generation == ticket && ticket in submitted && Latest(published, ticket).Some?
                    && var o := Latest(published, ticket).value;
                    o == Outcome(ticket, submitted[ticket], o.startedAt, true) && o.startedAt <= clock && now - o.startedAt < 10000
    {
      LatestIsOwn(published, ticket);
      if ticket == 0 || stopped || generation != ticket || failedGeneration == ticket || successGeneration != ticket { return false; }
      b := now - lastSuccess < 10000;
    }

    method HasFailed(ticket: nat) returns (b: bool)
      ensures b == Failed(Value(), ticket)
    {
      b := ticket == 0 || stopped || generation != ticket || failedGeneration == ticket;
    }

    /** The thread takes the operation of the current generation. */
    method PickOperation()
      requires Valid() && thread.Waiting?
      modifies this
      ensures Valid()
      ensures Value() == Next(old(Value()), Pick)
    {
      hide Invariant, Latest;
      StepHolds(Value(), Pick);
      if stopped { thread := Exited; return; }
      thread := if operation.None? then Waiting(generation) else Picked(generation, operation.value);
    }

    /** The time of a validation is taken before it begins. */
    method StartValidation()
      requires Valid() && thread.Picked?
      modifies this
      ensures Valid()
      ensures Value() == Next(old(Value()), Start)
    {
      hide Invariant, Latest;
      StepHolds(Value(), Start);
      thread := Validating(thread.generation, thread.operation, clock);
    }

    method FinishValidation(succeeded: bool)
      requires Valid() && thread.Validating?
      modifies this
      ensures Valid()
      ensures Value() == Next(old(Value()), Finish(succeeded))
      ensures var g := old(thread).generation; var o := Outcome(g, old(thread).operation, old(thread).startedAt, succeeded);
              if old(stopped) || generation != g then published == old(published)
              else published == old(published) + [o] && Latest(published, g) == Some(o) && (!succeeded ==> Failed(Value(), g))
    {
      hide Invariant, Latest;
      StepHolds(Value(), Finish(succeeded));
      LatestIsLast(published, Outcome(thread.generation, thread.operation, thread.startedAt, succeeded));
      var run := thread;
      if stopped || generation != run.generation { thread := Waiting(run.generation); return; }
      published := published + [Outcome(run.generation, run.operation, run.startedAt, succeeded)];
      if succeeded {
        lastSuccess := run.startedAt;
        thread := Clearing(run.generation, 1);
      } else {
        failedGeneration := run.generation;
        thread := Waiting(run.generation);
      }
    }

    method StoreNextField()
      requires Valid() && thread.Clearing?
      modifies this
      ensures Valid()
      ensures Value() == Next(old(Value()), StoreNext)
    {
      hide Invariant, Latest;
      StepHolds(Value(), StoreNext);
      if thread.stage == 1 {
        successGeneration := thread.generation;
        thread := Clearing(thread.generation, 2);
      } else {
        failedGeneration := 0;
        thread := Waiting(thread.generation);
      }
    }
  }
}
