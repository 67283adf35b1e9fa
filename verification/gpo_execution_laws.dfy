/**
 What the allowed steps of a GPO execution mean, told on the order of its events:
 where authority was affirmed, what was read before the approval was used, and
 which save of the intent stands before a call that writes.
 */
module GpoExecutionLaws {
  import opened Wrappers
  import opened GpoRecord
  import opened GpoProtocolSteps

  predicate IsRead(e: Event) { e.Seen? || e.Checked? || e.BackedUp? }

  predicate NothingRead(events: seq<Event>) { forall k | 0 <= k < |events| :: !IsRead(events[k]) }

  /** The last read or save, after which authority has to be affirmed anew. */
  function LastTouch(events: seq<Event>): (n: int)
    ensures -1 <= n < |events|
    ensures n >= 0 ==> IsRead(events[n]) || events[n].Saved?
    ensures forall k | n < k < |events| :: !IsRead(events[k]) && !events[k].Saved?
    decreases |events|
  {
    if events == [] then -1
    else
      var n := |events| - 1;
      if IsRead(events[n]) || events[n].Saved? then n else LastTouch(events[..n])
  }

  /** The last save of the intent: the creating record, or the one before the link. */
  function LastIntent(p: Process, events: seq<Event>): (n: int)
    ensures -1 <= n < |events|
    ensures n >= 0 ==> events[n].Saved? && IntentSave(AfterAll(p, events[..n]).view, events[n].record)
    decreases |events|
  {
    if events == [] then -1
    else
      var n := |events| - 1;
      if events[n].Saved? && IntentSave(AfterAll(p, events[..n]).view, events[n].record) then n
      else
        var m := LastIntent(p, events[..n]);
        assert m >= 0 ==> events[..n][..m] == events[..m];
        m
  }

  predicate AffirmedAfter(events: seq<Event>, from: int) {
    exists k :: from < k && 0 <= k < |events| && events[k] == Authorised(true)
  }

  /** Authority was affirmed before anything was read. */
  predicate AffirmedFirst(events: seq<Event>) {
    exists k :: 0 <= k < |events| && events[k] == Authorised(true) && NothingRead(events[..k])
  }

  ghost predicate ToldOfReads(q: Process, events: seq<Event>) {
    && (!q.heard.touched ==> NothingRead(events))
    && (q.heard.early ==> AffirmedFirst(events))
    && (q.heard.sure ==> AffirmedAfter(events, LastTouch(events)))
  }

  ghost predicate ToldOfIntents(p: Process, q: Process, events: seq<Event>) {
    var i := LastIntent(p, events);
    && (q.heard.willing ==> AffirmedAfter(events, i))
    && (q.intent ==> i >= 0)
    && (q.heard.again ==> i >= 0 && events[i].record.state.Importing? && (q.view.state.Importing? || Completed(q.view.state)))
  }

  ghost predicate ToldOfLooks(p: Process, q: Process, events: seq<Event>) {
    && q.view.assignment == p.view.assignment
    && q.heard.looks == |SeenIn(events)| && q.heard.matches <= q.heard.looks
    && (q.heard.matches == q.heard.looks ==> forall s | s in SeenIn(events) :: p.view.assignment.expected == Some(s))
  }

  ghost predicate Told(p: Process, q: Process, events: seq<Event>) {
    ToldOfReads(q, events) && ToldOfIntents(p, q, events) && ToldOfLooks(p, q, events)
  }

  lemma AffirmationsGrow(events: seq<Event>, e: Event)
    ensures AffirmedFirst(events) ==> AffirmedFirst(events + [e])
    ensures e == Authorised(true) && NothingRead(events) ==> AffirmedFirst(events + [e])
    ensures forall from: int | AffirmedAfter(events, from) :: AffirmedAfter(events + [e], from)
    ensures e == Authorised(true) ==> forall from: int | from < |events| :: AffirmedAfter(events + [e], from)
  {
    var more := events + [e];
    if AffirmedFirst(events) {
      var k :| 0 <= k < |events| && events[k] == Authorised(true) && NothingRead(events[..k]);
      assert more[k] == events[k] && more[..k] == events[..k];
    }
    assert more[|events|] == e && more[..|events|] == events;
    forall from: int | AffirmedAfter(events, from) ensures AffirmedAfter(more, from) {
      var k :| from < k && 0 <= k < |events| && events[k] == Authorised(true);
      assert more[k] == events[k];
    }
  }

  lemma ReadsNext(q: Process, events: seq<Event>, e: Event)
    requires ToldOfReads(q, events)
    ensures ToldOfReads(After(q, e), events + [e])
  {
    hide AffirmedFirst, AffirmedAfter, NothingRead;
    AffirmationsGrow(events, e);
    NothingReadGrows(events, e);
    assert (events + [e])[..|events|] == events;
  }

  lemma IntentsNext(p: Process, q: Process, events: seq<Event>, e: Event)
    requires ToldOfIntents(p, q, events) && q == AfterAll(p, events) && Allowed(q, e)
    ensures ToldOfIntents(p, After(q, e), events + [e])
  {
    hide AffirmedFirst, AffirmedAfter, AfterAll, AllowedSave;
    if e.Saved? { PhaseAfterImporting(q, e.record); }
    AffirmationsGrow(events, e);
    assert (events + [e])[..|events|] == events;
  }

  lemma LooksNext(p: Process, q: Process, events: seq<Event>, e: Event)
    requires ToldOfLooks(p, q, events) && Allowed(q, e)
    ensures ToldOfLooks(p, After(q, e), events + [e])
  {
    hide AllowedSave;
    if e.Saved? { PhaseAfterImporting(q, e.record); }
    assert (events + [e])[..|events|] == events;
    assert SeenIn(events + [e]) == SeenIn(events) + if e.Seen? then [e.snapshot] else [];
  }

  lemma ToldNext(p: Process, q: Process, events: seq<Event>, e: Event)
    requires Told(p, q, events) && q == AfterAll(p, events) && Allowed(q, e)
    ensures Told(p, After(q, e), events + [e])
  {
    hide ToldOfReads, ToldOfIntents, ToldOfLooks, AfterAll, After, Allowed;
    ReadsNext(q, events, e);
    IntentsNext(p, q, events, e);
    LooksNext(p, q, events, e);
  }

  lemma PhaseAfterImporting(q: Process, r: Record)
    requires AllowedSave(q, r)
    ensures r.assignment == q.view.assignment && !Completed(q.view.state)
    ensures q.view.state.Importing? ==> r.state.Importing? || Completed(r.state)
  {
    hide ValidRecord, PreparedOnly, HasStatus;
  }

  lemma NothingReadGrows(events: seq<Event>, e: Event)
    ensures NothingRead(events) && !IsRead(e) ==> NothingRead(events + [e])
  {
  }

  lemma {:induction false} Story(r: Record, events: seq<Event>)
    requires AllowedAll(Loaded(r), events)
    ensures Told(Loaded(r), AfterAll(Loaded(r), events), events)
    decreases |events|
  {
    hide Allowed, After, Told;
    if events == [] {
      StoryBegins(r);
    } else {
      var n := |events| - 1;
      Story(r, events[..n]);
      ToldNext(Loaded(r), AfterAll(Loaded(r), events[..n]), events[..n], events[n]);
      assert events[..n] + [events[n]] == events;
    }
  }

  lemma StoryBegins(r: Record)
    ensures Told(Loaded(r), AfterAll(Loaded(r), []), [])
  {
  }

  lemma OpenStep(q: Process, e: Event)
    requires After(q, e).heard.open
    ensures q.heard.open && !Negative(e)
  {
    hide IsExpected, IntentSave;
    match e
    case Saved(_) =>
    case Authorised(_) =>
    case Seen(_) =>
    case _ =>
  }

  lemma {:induction false} OpenMeansNoNegative(r: Record, events: seq<Event>)
    requires AfterAll(Loaded(r), events).heard.open
    ensures forall k | 0 <= k < |events| :: !Negative(events[k])
    decreases |events|
  {
    hide After, Negative;
    if events != [] {
      var n := |events| - 1;
      OpenStep(AfterAll(Loaded(r), events[..n]), events[n]);
      OpenMeansNoNegative(r, events[..n]);
      forall k | 0 <= k < |events| ensures !Negative(events[k]) { if k < n { assert events[..n][k] == events[k]; } }
    }
  }

  lemma AllowedAt(r: Record, events: seq<Event>, k: nat)
    requires AllowedAll(Loaded(r), events) && k < |events|
    ensures AllowedAll(Loaded(r), events[..k]) && Allowed(AfterAll(Loaded(r), events[..k]), events[k])
    decreases |events|
  {
    hide Allowed, After;
    if k < |events| - 1 {
      AllowedAt(r, events[..|events| - 1], k);
      assert events[..|events| - 1][..k] == events[..k];
    }
  }

  /**
   The approval is used only after authority was affirmed before anything was read and again after the last read, with
   nothing negative heard. A managed job read the state exactly twice by then, and both times it was the approved one.
   */
  lemma ConsumptionNeedsAuthority(r: Record, events: seq<Event>, k: nat)
    requires AllowedAll(Loaded(r), events) && k < |events| && events[k] == Consumed
    ensures AffirmedFirst(events[..k]) && AffirmedAfter(events[..k], LastTouch(events[..k]))
    ensures forall m | 0 <= m < k :: !Negative(events[m])
    ensures r.assignment.schema >= 3 ==> r.assignment.expected.Some? && SeenIn(events[..k]) == [r.assignment.expected.value, r.assignment.expected.value]
  {
    hide AllowedAll, AfterAll, AffirmedFirst, AffirmedAfter, SeenIn;
    AllowedAt(r, events, k);
    Story(r, events[..k]);
    OpenMeansNoNegative(r, events[..k]);
    forall m | 0 <= m < k ensures !Negative(events[m]) { assert events[..k][m] == events[m]; }
    var seen := SeenIn(events[..k]);
    if r.assignment.schema >= 3 { assert seen[0] in seen && seen[1] in seen; }
  }

  /**
   Every call that writes stands after a save of the intent, and after that save authority was affirmed once more; nothing
   negative was heard before it. For a link after an import that save is the second one, made with the imported GPO's name.
   */
  lemma CallNeedsAuthority(r: Record, events: seq<Event>, k: nat) returns (i: nat)
    requires AllowedAll(Loaded(r), events) && k < |events| && events[k].Mutated?
    ensures i < k && events[i].Saved? && IntentSave(AfterAll(Loaded(r), events[..i]).view, events[i].record)
    ensures i == LastIntent(Loaded(r), events[..k]) && AffirmedAfter(events[..k], i)
    ensures events[k].call.LinkCall? && r.assignment.operation.ImportAndLink? ==>
              events[i].record.state.Importing? && LastTouch(events[..k]) >= i && AffirmedAfter(events[..k], LastTouch(events[..k]))
    ensures forall m | 0 <= m < k :: !Negative(events[m])
  {
    hide AllowedAll, AfterAll, AffirmedFirst, AffirmedAfter, SeenIn, IntentSave;
    AllowedAt(r, events, k);
    Story(r, events[..k]);
    OpenMeansNoNegative(r, events[..k]);
    forall m | 0 <= m < k ensures !Negative(events[m]) { assert events[..k][m] == events[m]; }
    i := LastIntent(Loaded(r), events[..k]);
    assert events[..k][i] == events[i] && events[..k][..i] == events[..i];
  }

  /** An inspection is recorded as such only when authority was affirmed before and after it read. */
  lemma InspectionNeedsAuthority(r: Record, events: seq<Event>, k: nat)
    requires AllowedAll(Loaded(r), events) && k < |events| && events[k].Saved? && HasStatus(events[k].record, Inspected)
    requires AfterAll(Loaded(r), events[..k]).view.state.Prepared?
    ensures AffirmedFirst(events[..k]) && AffirmedAfter(events[..k], LastTouch(events[..k]))
  {
    hide AllowedAll, AfterAll, AffirmedFirst, AffirmedAfter, SeenIn;
    AllowedAt(r, events, k);
    Story(r, events[..k]);
    InspectedIsTerminal(events[k].record);
  }

  lemma InspectedIsTerminal(r: Record)
    requires HasStatus(r, Inspected)
    ensures ValidRecord(r) ==> r.state.Terminal?
  {
  }
}
