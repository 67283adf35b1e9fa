/**
 What one process may do with a GPO record: which saves, when it may consume
 the approval, and when it may call the directory. The executions are shown to
 keep to this, and the runs over crashes and restarts are built from it.
 */
module GpoProtocolSteps {
  import opened Wrappers
  import opened GpoRecord

  /** The provider calls that write to the directory. */
  datatype Call = CreateCall | InitializeCall | AdoptCall | LinkCall | ActivateCall | DeactivateCall | RemoveCall
                | DisableCall | IdentifyCall | ImportCall

  /**
   Everything a process does and hears, in order: saves, the use of the approval and the calls that write; the answers to
   the question for authority; what was read, checked, backed up, named and verified; and whatever threw, with its text.
   */
  datatype Event =
    | Saved(record: Record)
    | Consumed
    | Mutated(call: Call)
    | Authorised(current: bool)
    | Seen(snapshot: Snapshot)
    | Sized(fits: bool)
    | Checked
    | BackedUp(backup: (string, string))
    | Named(guid: string)
    | Verified(evidence: Evidence)
    | Thrown(code: Code)

  /** An answer after which only the outcome is left. */
  predicate Negative(e: Event) { e.Thrown? || (e.Authorised? && !e.current) }

  /**
   What a process has heard: `early`, that authority was affirmed before anything was read; `looks` and `matches`, how many
   snapshots were read and how many of them were the approved one; `sure`, that authority was affirmed since the last read
   or save; `willing`, that it was affirmed since the intent was last saved; `again`, that the intent was saved a second time; `open`,
   that nothing negative was heard.
   */
  datatype Heard = Heard(early: bool, touched: bool, looks: nat, matches: nat, sure: bool, willing: bool,
                         again: bool, open: bool)

  const NOTHING_HEARD := Heard(false, false, 0, 0, false, false, false, true)

  /**
   `view` is the record last loaded or saved. `loaded`: it was granted when this process read it from disk;
   `consumed` and `intent`: this process consumed the approval, and saved the creating intent; `mutated`: it called the directory.
   */
  datatype Process = Process(view: Record, loaded: bool, consumed: bool, intent: bool, mutated: bool, heard: Heard)

  predicate Writing(p: Phase) { p.Creating? || p.Created? || p.Importing? }

  predicate HasStatus(r: Record, s: Status) { r.result.Some? && r.result.value.status == s }

  /** An import into a GPO that is already managed prepares content without writing to the directory. */
  predicate PreparedOnly(r: Record) {
    && HasStatus(r, Staged) && r.assignment.operation.ImportManaged? && r.assignment.gpoGuid != "" && !Adoption(r.assignment)
  }

  predicate AllowedSave(p: Process, r: Record) {
    && r.assignment == p.view.assignment && r.deviceUri == p.view.deviceUri
    && ValidRecord(r)
    && match (p.view.state, r.state)
       case (Prepared, Granted) => r.deadline == 0
       case (Prepared, Terminal) => HasStatus(r, FailedStatus) || (HasStatus(r, Inspected) && AffirmedAround(p.heard))
       case (Prepared, Reconciliation) => true
       case (Granted, Granted) => p.view.deadline == 0 && !p.loaded
       case (Granted, Terminal) => HasStatus(r, FailedStatus) || (p.consumed && p.heard.open && PreparedOnly(r))
       case (Granted, Reconciliation) => true
       case (Granted, Creating) => p.loaded && p.consumed && p.heard.open
       case (Creating, Created) => p.intent && p.heard.open
       case (Created, Importing) => p.intent && p.heard.open
       case (Importing, Importing) => p.intent && p.heard.open
       case (Importing, Terminal) => p.intent && p.heard.open && Success(r.result.value.status)
       case (_, Reconciliation) => Writing(p.view.state)
       case _ => false
  }

  /** Authority was affirmed before anything was read, and again after the last read. */
  predicate AffirmedAround(h: Heard) { h.open && h.early && h.sure }

  predicate Allowed(p: Process, e: Event) {
    match e
    case Saved(r) => AllowedSave(p, r)
    case Consumed =>
      && p.view.state.Granted? && p.loaded && !p.consumed && AffirmedAround(p.heard)
      && (p.view.assignment.schema >= 3 ==> p.heard.looks == p.heard.matches == 2)
    case Mutated(call) =>
      && p.consumed && p.intent && Writing(p.view.state) && p.heard.willing && p.heard.open
      && (call.LinkCall? && p.view.assignment.operation.ImportAndLink? ==> p.heard.again && p.heard.sure)
    case _ => p.heard.open && !Completed(p.view.state)
  }

  /** The state that was approved. */
  predicate IsExpected(j: Job, s: Snapshot) { j.expected == Some(s) }

  function Hear(p: Process, e: Event): Heard {
    var h := p.heard;
    match e
    case Saved(r) => h.(sure := false, willing := h.willing && !IntentSave(p.view, r), again := h.again || (p.view.state.Importing? && r.state.Importing?))
    case Authorised(current) =>
      h.(early := h.early || (current && !h.touched), sure := current, willing := current, open := h.open && current)
    case Seen(s) =>
      h.(touched := true, looks := h.looks + 1, matches := h.matches + if IsExpected(p.view.assignment, s) then 1 else 0, sure := false)
    case Checked => h.(touched := true, sure := false)
    case BackedUp(_) => h.(touched := true, sure := false)
    case Thrown(_) => h.(open := false)
    case _ => h
  }

  /** A save of the intent: the first one, or the one before the link. */
  predicate IntentSave(view: Record, r: Record) { r.state.Creating? || (view.state.Importing? && r.state.Importing?) }

  function After(p: Process, e: Event): Process {
    match e
    case Saved(r) => Process(r, p.loaded && !r.state.Granted?, p.consumed, p.intent || r.state.Creating?, p.mutated, Hear(p, e))
    case Consumed => p.(consumed := true)
    case Mutated(_) => p.(mutated := true)
    case _ => p.(heard := Hear(p, e))
  }

  function AfterAll(p: Process, events: seq<Event>): Process {
    if events == [] then p else After(AfterAll(p, events[..|events| - 1]), events[|events| - 1])
  }

  predicate AllowedAll(p: Process, events: seq<Event>) {
    events == [] || (AllowedAll(p, events[..|events| - 1])
                     && Allowed(AfterAll(p, events[..|events| - 1]), events[|events| - 1]))
  }

  /** The directory calls among the events, in order. */
  function CallsIn(events: seq<Event>): seq<Call> {
    if events == [] then []
    else
      var last := events[|events| - 1];
      CallsIn(events[..|events| - 1]) + if last.Mutated? then [last.call] else []
  }

  /** The snapshots that were read, in order. */
  function SeenIn(events: seq<Event>): seq<Snapshot> {
    if events == [] then []
    else
      var last := events[|events| - 1];
      SeenIn(events[..|events| - 1]) + if last.Seen? then [last.snapshot] else []
  }

  /** The last backup that was made. */
  function BackupIn(events: seq<Event>): (string, string) {
    if events == [] then ("", "")
    else
      var last := events[|events| - 1];
      if last.BackedUp? then last.backup else BackupIn(events[..|events| - 1])
  }

  lemma AllowedNext(p: Process, events: seq<Event>, e: Event)
    requires AllowedAll(p, events) && Allowed(AfterAll(p, events), e)
    ensures AllowedAll(p, events + [e]) && AfterAll(p, events + [e]) == After(AfterAll(p, events), e)
    ensures CallsIn(events + [e]) == if e.Mutated? then CallsIn(events) + [e.call] else CallsIn(events)
    ensures SeenIn(events + [e]) == if e.Seen? then SeenIn(events) + [e.snapshot] else SeenIn(events)
    ensures BackupIn(events + [e]) == if e.BackedUp? then e.backup else BackupIn(events)
  {
    assert (events + [e])[..|events + [e]| - 1] == events;
    assert CallsIn(events) + [] == CallsIn(events) && SeenIn(events) + [] == SeenIn(events);
  }

  /** A process that loaded a record and has done nothing with it. */
  function Loaded(r: Record): Process { Process(r, true, false, false, false, NOTHING_HEARD) }

  /** A process that took a job itself, and so has no granted record read from disk. */
  function Claiming(r: Record): Process { Process(r, false, false, false, false, NOTHING_HEARD) }

  /** Before every directory call, the same process consumed the approval and then saved the creating intent. */
  lemma {:induction false} MutationNeedsIntent(r: Record, events: seq<Event>, k: nat)
    requires AllowedAll(Loaded(r), events) && k < |events| && events[k].Mutated?
    ensures exists a, b :: 0 <= a < b < k && events[a].Consumed? && events[b].Saved? && events[b].record.state.Creating?
    decreases |events|
  {
    if k < |events| - 1 {
      MutationNeedsIntent(r, events[..|events| - 1], k);
      var a, b :| 0 <= a < b < k && events[..|events| - 1][a].Consumed? && events[..|events| - 1][b].Saved?
                  && events[..|events| - 1][b].record.state.Creating?;
      assert events[a].Consumed? && events[b].Saved?;
    } else {
      var before := events[..k];
      IntentFollowsConsumption(r, before);
      var a, b :| 0 <= a < b < k && before[a].Consumed? && before[b].Saved? && before[b].record.state.Creating?;
      assert events[a].Consumed? && events[b].Saved?;
    }
  }

  lemma {:induction false} IntentFollowsConsumption(r: Record, events: seq<Event>)
    requires AllowedAll(Loaded(r), events)
    ensures AfterAll(Loaded(r), events).consumed ==> exists a :: 0 <= a < |events| && events[a].Consumed?
    ensures AfterAll(Loaded(r), events).intent ==>
              exists a, b :: 0 <= a < b < |events| && events[a].Consumed? && events[b].Saved? && events[b].record.state.Creating?
    decreases |events|
  {
    hide ValidRecord;
    if events != [] {
      var n := |events| - 1;
      var front := events[..n];
      IntentFollowsConsumption(r, front);
      var p := AfterAll(Loaded(r), front);
      if p.consumed {
        var a :| 0 <= a < n && front[a].Consumed?;
        assert events[a].Consumed?;
      }
      if p.intent {
        var a, b :| 0 <= a < b < n && front[a].Consumed? && front[b].Saved? && front[b].record.state.Creating?;
        assert events[a].Consumed? && events[b].Saved?;
      }
      if events[n].Saved? && events[n].record.state.Creating? && !p.intent {
        var a :| 0 <= a < n && front[a].Consumed?;
        assert events[a].Consumed? && events[n].Saved?;
      }
    }
  }

  /** Every record that was saved can be read back. */
  lemma {:induction false} SavedAreValid(p: Process, events: seq<Event>, k: nat)
    requires AllowedAll(p, events) && k < |events| && events[k].Saved?
    ensures ValidRecord(events[k].record) && ParseJournal(Document(events[k].record).value) == Some(events[k].record)
    decreases |events|
  {
    hide ParseJournal, Document;
    if k < |events| - 1 {
      SavedAreValid(p, events[..|events| - 1], k);
    } else {
      ParseAfterDocument(events[k].record);
    }
  }

  // ----- The journal and its surroundings as the methods see them -----

  class Journal {
    const assignment: Job
    const deviceUri: string
    var state: Phase
    var guid: string
    var deadline: nat
    var result: Option<Receipt>
    var approval: Option<Approval>

    constructor (r: Record)
      ensures Value() == r
    {
      assignment, deviceUri := r.assignment, r.deviceUri;
      state, guid, deadline, result, approval := r.state, r.guid, r.deadline, r.result, r.approval;
    }

    function Value(): Record
      reads this
    {
      Record(assignment, deviceUri, state, guid, deadline, result, approval)
    }
  }

  /** What a call into the provider, the clock or the approval store comes back with: a value, or an exception's text. */
  datatype Answer<+T> = Got(value: T) | Raised(code: Code)

  /** How a method ends: with a result, or with an exception that leaves it. */
  datatype Ending = Returned(receipt: Receipt) | Escaped

  /** Questions and reads are for a record that is not settled, while nothing negative was heard. */
  predicate Asking(p: Process) { p.heard.open && !Completed(p.view.state) }

  /** The trace grew by one event, which was allowed. */
  ghost predicate Grew(p: Process, before: seq<Event>, trace: seq<Event>, e: Event) {
    && trace == before + [e] && AllowedAll(p, trace) && AfterAll(p, trace) == After(AfterAll(p, before), e)
    && CallsIn(trace) == (if e.Mutated? then CallsIn(before) + [e.call] else CallsIn(before))
    && SeenIn(trace) == (if e.Seen? then SeenIn(before) + [e.snapshot] else SeenIn(before))
    && BackupIn(trace) == (if e.BackedUp? then e.backup else BackupIn(before))
  }

  /**
   Answers are arbitrary, and each is recorded; a save completes or ends the process. `p` is the process as it began.
   A call that writes is recorded before its answer.
   */
  class Environment {
    var trace: seq<Event>

    constructor ()
      ensures trace == []
    {
      trace := [];
    }

    method Note(ghost p: Process, e: Event)
      requires AllowedAll(p, trace) && Allowed(AfterAll(p, trace), e)
      modifies this
      ensures Grew(p, old(trace), trace, e)
    {
      AllowedNext(p, trace, e);
      trace := trace + [e];
    }

    method Authority(ghost p: Process) returns (r: Answer<bool>)
      requires AllowedAll(p, trace) && Asking(AfterAll(p, trace))
      modifies this
      ensures Grew(p, old(trace), trace, if r.Got? then Authorised(r.value) else Thrown(r.code))
    {
      hide AllowedAll, AfterAll, CallsIn, SeenIn, BackupIn;
      r := *;
      match r {
        case Got(value) => Note(p, Authorised(value));
        case Raised(code) => Note(p, Thrown(code));
      }
    }

    method Prepare(ghost p: Process) returns (r: Answer<bool>)
      requires AllowedAll(p, trace) && Asking(AfterAll(p, trace))
      modifies this
      ensures Grew(p, old(trace), trace, if r.Got? then Checked else Thrown(r.code))
    {
      hide AllowedAll, AfterAll, CallsIn, SeenIn, BackupIn;
      r := *;
      match r {
        case Got(value) => Note(p, Checked);
        case Raised(code) => Note(p, Thrown(code));
      }
    }

    method Backup(ghost p: Process) returns (r: Answer<(string, string)>)
      requires AllowedAll(p, trace) && Asking(AfterAll(p, trace))
      modifies this
      ensures Grew(p, old(trace), trace, if r.Got? then BackedUp(r.value) else Thrown(r.code))
    {
      hide AllowedAll, AfterAll, CallsIn, SeenIn, BackupIn;
      r := *;
      match r {
        case Got(value) => Note(p, BackedUp(value));
        case Raised(code) => Note(p, Thrown(code));
      }
    }

    method SizeFits(ghost p: Process) returns (fits: bool)
      requires AllowedAll(p, trace) && Asking(AfterAll(p, trace))
      modifies this
      ensures Grew(p, old(trace), trace, Sized(fits))
    {
      fits := *;
      Note(p, Sized(fits));
    }

    method Verify(ghost p: Process) returns (r: Answer<Evidence>)
      requires AllowedAll(p, trace) && Asking(AfterAll(p, trace))
      modifies this
      ensures Grew(p, old(trace), trace, if r.Got? then Verified(r.value) else Thrown(r.code))
    {
      hide AllowedAll, AfterAll, CallsIn, SeenIn, BackupIn;
      r := *;
      match r {
        case Got(value) => Note(p, Verified(value));
        case Raised(code) => Note(p, Thrown(code));
      }
    }

    method Inspect(ghost p: Process) returns (r: Answer<Snapshot>)
      requires AllowedAll(p, trace) && Asking(AfterAll(p, trace))
      modifies this
      ensures Grew(p, old(trace), trace, if r.Got? then Seen(r.value) else Thrown(r.code))
    {
      hide AllowedAll, AfterAll, CallsIn, SeenIn, BackupIn;
      r := *;
      match r {
        case Got(value) => Note(p, Seen(value));
        case Raised(code) => Note(p, Thrown(code));
      }
    }

    method Consume(ghost p: Process) returns (r: Answer<bool>)
      requires AllowedAll(p, trace) && Allowed(AfterAll(p, trace), Consumed)
      modifies this
      ensures Grew(p, old(trace), trace, if r.Got? then Consumed else Thrown(r.code))
    {
      hide AllowedAll, AfterAll, CallsIn, SeenIn, BackupIn;
      r := *;
      match r {
        case Got(value) => Note(p, Consumed);
        case Raised(code) => Note(p, Thrown(code));
      }
    }

    method Create(ghost p: Process) returns (r: Answer<string>)
      requires AllowedAll(p, trace) && Allowed(AfterAll(p, trace), Mutated(CreateCall))
      modifies this
      ensures Grew(p, old(trace) + [Mutated(CreateCall)], trace, if r.Got? then Named(r.value) else Thrown(r.code))
      ensures Grew(p, old(trace), old(trace) + [Mutated(CreateCall)], Mutated(CreateCall))
    {
      hide AllowedAll, AfterAll, CallsIn, SeenIn, BackupIn, AllowedSave;
      r := *;
      Note(p, Mutated(CreateCall));
      match r {
        case Got(value) => Note(p, Named(value));
        case Raised(code) => Note(p, Thrown(code));
      }
    }

    method Mutate(ghost p: Process, call: Call) returns (r: Answer<bool>)
      requires AllowedAll(p, trace) && Allowed(AfterAll(p, trace), Mutated(call))
      modifies this
      ensures r.Got? ==> Grew(p, old(trace), trace, Mutated(call))
      ensures r.Raised? ==> Grew(p, old(trace), old(trace) + [Mutated(call)], Mutated(call))
                            && Grew(p, old(trace) + [Mutated(call)], trace, Thrown(r.code))
    {
      hide AllowedAll, AfterAll, CallsIn, SeenIn, BackupIn, AllowedSave;
      r := *;
      Note(p, Mutated(call));
      match r {
        case Got(_) =>
        case Raised(code) => Note(p, Thrown(code));
      }
    }
  }

  /** Saves the journal as it stands. */
  method Persist(ghost p: Process, j: Journal, env: Environment)
    requires AllowedAll(p, env.trace) && AllowedSave(AfterAll(p, env.trace), j.Value())
    modifies env
    ensures Grew(p, old(env.trace), env.trace, Saved(j.Value()))
  {
    env.Note(p, Saved(j.Value()));
  }
}
