/**
 What the preflight of a Hyper-V management command means, said on the
 command and the snapshot alone: which commands are accepted, and which
 answer each unmet demand gets.
 */
module HypervGuardLaws {
  import opened Wrappers
  import opened HypervJournal
  import opened HypervGuards

  // ----- What a command asks of the snapshot, field by field -----

  ghost predicate WellFormed(c: Command) {
    IsGuid(c.vmId) && |c.expectedRevision| == 64 && forall i :: 0 <= i < 64 ==> LowerHex(c.expectedRevision[i])
  }

  /** The machine and the revision are the ones the command was made for. */
  ghost predicate SameState(c: Command, s: Snapshot) {
    s.vmId == Some(c.vmId) && s.vmName == Some(c.expectedName) && s.revision == Some(c.expectedRevision)
  }

  /** A settings change does not need the checkpoints. */
  ghost predicate Collected(c: Command, s: Snapshot) {
    s.settingsStatus == Some("collected") && (c.request.Update? || s.checkpointsStatus == Some("collected"))
  }

  ghost predicate Capable(c: Command, s: Snapshot) {
    OperationOf(c.request) in s.capabilities && s.capabilities[OperationOf(c.request)]
  }

  ghost predicate Admitted(c: Command, s: Option<Snapshot>) {
    && WellFormed(c) && s.Some? && SameState(c, s.value) && Collected(c, s.value) && Capable(c, s.value)
    && s.value.state.Some?
  }

  ghost predicate RunningOrStopped(s: Snapshot) { s.state == Some("running") || s.state == Some("stopped") }

  /** Readable rows without repeated ids that form a forest. */
  ghost predicate SoundRows(rows: seq<Option<Checkpoint>>) {
    AllRead(rows) && DistinctIds(Readable(rows)) && IsForest(ParentMap(Readable(rows)))
  }

  /** `row` is the checkpoint that `id` names. */
  ghost predicate Selects(s: Snapshot, id: Option<string>, row: Checkpoint) {
    && id.Some? && IsGuid(id.value) && s.checkpoints.Some? && SoundRows(s.checkpoints.value)
    && Some(row) in s.checkpoints.value && row.id == id.value
  }

  // ----- Accepted commands -----

  /** An accepted command was made for this machine, under this name, at this revision; everything it rests on was collected. */
  lemma AcceptedIsCurrent(c: Command, s: Option<Snapshot>)
    requires Verdict(c, s) == ""
    ensures s.Some? && s.value.vmId == Some(c.vmId) && s.value.vmName == Some(c.expectedName)
    ensures s.value.revision == Some(c.expectedRevision)
    ensures s.value.settingsStatus == Some("collected")
    ensures !c.request.Update? ==> s.value.checkpointsStatus == Some("collected")
    ensures OperationOf(c.request) in s.value.capabilities && s.value.capabilities[OperationOf(c.request)]
    ensures !c.request.Look?
  {
    hide CheckpointVerdict, IsGuid;
    HeadIsAdmission(c, s);
  }

  lemma HeadIsAdmission(c: Command, s: Option<Snapshot>)
    ensures HeadVerdict(c, s) == "" <==> Admitted(c, s)
  {
    hide IsGuid, LowerHex;
  }

  lemma AcceptedCreate(c: Command, s: Option<Snapshot>)
    requires c.request.Create?
    ensures Verdict(c, s) == "" <==>
              && Admitted(c, s) && c.request.count == 1 && c.request.policy == Some("configured")
              && s.value.checkpointPolicy == Some(5) && RunningOrStopped(s.value)
  {
    hide HeadVerdict, Admitted;
    HeadIsAdmission(c, s);
    if Admitted(c, s) { HeadIsReadable(c, s); }
  }

  lemma AcceptedUpdate(c: Command, s: Option<Snapshot>)
    requires c.request.Update?
    ensures Verdict(c, s) == "" <==> Admitted(c, s) && c.request.verdict == ""
  {
    hide HeadVerdict, Admitted;
    HeadIsAdmission(c, s);
  }

  ghost predicate ApplyConfirmed(c: Command, row: Checkpoint)
    requires c.request.Apply?
  {
    && c.request.count == 3 && c.request.vmName == Some(c.expectedName)
    && c.request.checkpointName.Some? && c.request.checkpointName == row.name
    && row.canApply == Some(true)
  }

  /** An apply is accepted exactly when both names confirm it, the checkpoint allows it and the machine is stopped. */
  lemma AcceptedApply(c: Command, s: Option<Snapshot>)
    requires c.request.Apply?
    ensures Verdict(c, s) == "" <==>
              && Admitted(c, s) && s.value.state == Some("stopped")
              && exists row :: Selects(s.value, c.request.checkpointId, row) && ApplyConfirmed(c, row)
  {
    hide HeadVerdict, Admitted, CheckpointVerdict, Selects, ApplyConfirmed;
    HeadIsAdmission(c, s);
    if Admitted(c, s) {
      HeadIsReadable(c, s);
      var state := s.value.state.value;
      if CheckpointVerdict(c, s.value, state) == "" {
        var row := AcceptedSelects(c, s.value, state);
        ApplyMeans(c, row, state);
      }
      if row :| Selects(s.value, c.request.checkpointId, row) && ApplyConfirmed(c, row) {
        SelectedDecides(c, s.value, state, row);
        ApplyMeans(c, row, state);
      }
    }
  }

  lemma ApplyMeans(c: Command, row: Checkpoint, state: string)
    requires c.request.Apply?
    ensures ApplyVerdict(c, row, state) == "" <==> ApplyConfirmed(c, row) && state == "stopped"
  {
  }

  ghost predicate DeleteAcknowledged(c: Command, s: Snapshot, row: Checkpoint)
    requires c.request.Delete? && s.checkpoints.Some?
  {
    && c.request.count == 2 && row.canDelete == Some(true)
    && c.request.acknowledged.Some? && ValidAcknowledgement(c.request.acknowledged.value)
    && Elements(c.request.acknowledged.value) == Subtree(ParentMap(Readable(s.checkpoints.value)), row.id)
  }

  /** A delete is accepted exactly when it acknowledges the whole subtree of a checkpoint that allows it, on a running or stopped machine. */
  lemma DeleteIsAccepted(c: Command, s: Option<Snapshot>)
    requires c.request.Delete?
    ensures Verdict(c, s) == "" <==>
              && Admitted(c, s) && RunningOrStopped(s.value)
              && exists row :: Selects(s.value, c.request.checkpointId, row) && s.value.checkpoints.Some? && DeleteAcknowledged(c, s.value, row)
  {
    hide HeadVerdict, Admitted, CheckpointVerdict, Selects, DeleteAcknowledged;
    HeadIsAdmission(c, s);
    if Admitted(c, s) {
      HeadIsReadable(c, s);
      var state := s.value.state.value;
      if CheckpointVerdict(c, s.value, state) == "" {
        var row := AcceptedSelects(c, s.value, state);
        SelectsIn(s.value, c.request.checkpointId, row);
        DeleteMeans(c, s.value, row, state);
      }
      if row :| Selects(s.value, c.request.checkpointId, row) && s.value.checkpoints.Some? && DeleteAcknowledged(c, s.value, row) {
        SelectedDecides(c, s.value, state, row);
        DeleteMeans(c, s.value, row, state);
      }
    }
  }

  lemma SelectsIn(s: Snapshot, id: Option<string>, row: Checkpoint)
    requires Selects(s, id, row)
    ensures s.checkpoints.Some?
  {
    hide IsGuid, SoundRows;
  }

  lemma DeleteMeans(c: Command, s: Snapshot, row: Checkpoint, state: string)
    requires c.request.Delete? && s.checkpoints.Some? && s.state == Some(state)
    ensures DeleteVerdict(c, ParentMap(Readable(s.checkpoints.value)), row, state) == "" <==>
              DeleteAcknowledged(c, s, row) && RunningOrStopped(s)
  {
    hide ValidAcknowledgement, Elements, Subtree, ParentMap, Readable;
  }

  /** What is decided once the checkpoint is found. */
  ghost function RowVerdict(c: Command, s: Snapshot, row: Checkpoint, state: string): string
    requires (c.request.Delete? || c.request.Apply?) && s.checkpoints.Some?
  {
    if c.request.Apply? then ApplyVerdict(c, row, state)
    else DeleteVerdict(c, ParentMap(Readable(s.checkpoints.value)), row, state)
  }

  lemma RowsRead(rows: seq<Option<Checkpoint>>, row: Checkpoint)
    requires AllRead(rows)
    ensures row in Readable(rows) <==> Some(row) in rows
  {
    ReadableKeeps(rows);
    if k :| 0 <= k < |rows| && rows[k] == Some(row) { assert Readable(rows)[k] == row; }
    if k :| 0 <= k < |Readable(rows)| && Readable(rows)[k] == row { assert rows[k] == Some(row); }
  }

  lemma AcceptedSelects(c: Command, s: Snapshot, state: string) returns (row: Checkpoint)
    requires c.request.Delete? || c.request.Apply?
    requires CheckpointVerdict(c, s, state) == ""
    ensures s.checkpoints.Some? && Selects(s, c.request.checkpointId, row) && RowVerdict(c, s, row, state) == ""
  {
    hide IsGuid, Readable, RowsProblem, IsForest, ParentMap, ApplyVerdict, DeleteVerdict, AllRead, DistinctIds;
    var rows, id := s.checkpoints.value, c.request.checkpointId.value;
    RowsAreSound(rows);
    var cps := Readable(rows);
    var k :| 0 <= k < |cps| && cps[k].id == id;
    row := cps[k];
    SelectedIsUnique(cps, row);
    RowsRead(rows, row);
  }

  lemma SelectedDecides(c: Command, s: Snapshot, state: string, row: Checkpoint)
    requires c.request.Delete? || c.request.Apply?
    requires Selects(s, c.request.checkpointId, row)
    ensures s.checkpoints.Some? && CheckpointVerdict(c, s, state) == RowVerdict(c, s, row, state)
  {
    hide IsGuid, Readable, RowsProblem, IsForest, ParentMap, ApplyVerdict, DeleteVerdict, AllRead, DistinctIds;
    var rows := s.checkpoints.value;
    RowsAreSound(rows);
    RowsRead(rows, row);
    SelectedIsUnique(Readable(rows), row);
  }

  // ----- The answer to each unmet demand -----

  /** Every field the checks before the operation read is there. */
  ghost predicate Legible(c: Command, s: Snapshot) {
    && s.vmId.Some? && s.vmName.Some? && s.revision.Some? && s.settingsStatus.Some? && s.checkpointsStatus.Some?
    && OperationOf(c.request) in s.capabilities && s.state.Some?
  }

  /** The answers before the operation is looked at, each for a snapshot that meets what is asked earlier. */
  lemma HeadRefusals(c: Command, s: Snapshot)
    requires Legible(c, s)
    ensures !WellFormed(c) ==> Verdict(c, Some(s)) == "invalid_management_command"
    ensures WellFormed(c) && (s.vmId != Some(c.vmId) || s.vmName != Some(c.expectedName)) ==> Verdict(c, Some(s)) == "vm_identity_conflict"
    ensures WellFormed(c) && s.vmId == Some(c.vmId) && s.vmName == Some(c.expectedName) && s.revision != Some(c.expectedRevision) ==>
              Verdict(c, Some(s)) == "management_revision_changed"
    ensures WellFormed(c) && SameState(c, s) && s.settingsStatus != Some("collected") ==> Verdict(c, Some(s)) == "management_snapshot_unavailable"
    ensures WellFormed(c) && SameState(c, s) && s.settingsStatus == Some("collected") && !c.request.Update? && s.checkpointsStatus != Some("collected") ==>
              Verdict(c, Some(s)) == "management_snapshot_unavailable"
    ensures WellFormed(c) && SameState(c, s) && Collected(c, s) && !s.capabilities[OperationOf(c.request)] ==>
              Verdict(c, Some(s)) == "management_operation_unsupported"
  {
    hide IsGuid, LowerHex, CheckpointVerdict;
  }

  /** A snapshot without one of the fields that the checks reach is no snapshot for the command. */
  lemma MissingField(c: Command, s: Option<Snapshot>)
    requires s.None? || s.value.vmId.None?
             || (s.value.vmId == Some(c.vmId) && s.value.vmName.None?)
             || (s.value.vmId == Some(c.vmId) && s.value.vmName == Some(c.expectedName) && s.value.revision.None?)
             || (SameState(c, s.value) && s.value.settingsStatus.None?)
             || (SameState(c, s.value) && s.value.settingsStatus == Some("collected") && !c.request.Update? && s.value.checkpointsStatus.None?)
             || (SameState(c, s.value) && Collected(c, s.value) && OperationOf(c.request) !in s.value.capabilities)
             || (SameState(c, s.value) && Collected(c, s.value) && Capable(c, s.value) && s.value.state.None?)
    ensures Verdict(c, s) == "invalid_management_command"
  {
    hide IsGuid, LowerHex, CheckpointVerdict;
  }

  /** The answers of an admitted create. */
  lemma CreateRefusals(c: Command, s: Option<Snapshot>)
    requires c.request.Create? && Admitted(c, s)
    ensures c.request.count != 1 || c.request.policy != Some("configured") || s.value.checkpointPolicy.None? ==>
              Verdict(c, s) == "invalid_management_command"
    ensures c.request.count == 1 && c.request.policy == Some("configured") && s.value.checkpointPolicy.Some? && s.value.checkpointPolicy != Some(5) ==>
              Verdict(c, s) == "checkpoint_policy_unsupported"
    ensures c.request.count == 1 && c.request.policy == Some("configured") && s.value.checkpointPolicy == Some(5) && !RunningOrStopped(s.value) ==>
              Verdict(c, s) == "invalid_vm_state"
  {
    hide HeadVerdict, Admitted;
    HeadIsAdmission(c, s);
    HeadIsReadable(c, s);
  }

  /** An admitted checkpoint command that selects no checkpoint of a forest. */
  lemma SelectionRefusals(c: Command, s: Option<Snapshot>)
    requires (c.request.Delete? || c.request.Apply?) && Admitted(c, s)
    requires c.request.checkpointId.Some? && IsGuid(c.request.checkpointId.value) && s.value.checkpoints.Some?
    ensures var rows := s.value.checkpoints.value; var id := c.request.checkpointId.value;
            && (AllRead(rows) && !DistinctIds(Readable(rows)) ==> Verdict(c, s) == "management_snapshot_unavailable")
            && (AllRead(rows) && DistinctIds(Readable(rows)) && !HasId(Readable(rows), id) ==> Verdict(c, s) == "management_checkpoint_not_found")
            && (AllRead(rows) && DistinctIds(Readable(rows)) && HasId(Readable(rows), id) && !IsForest(ParentMap(Readable(rows))) ==>
                  Verdict(c, s) == "management_snapshot_unavailable")
  {
    hide HeadVerdict, Admitted, IsGuid, Readable, RowsProblem, IsForest, ParentMap, AllRead, DistinctIds, HasId, ApplyVerdict, DeleteVerdict;
    HeadIsAdmission(c, s);
    HeadIsReadable(c, s);
    var rows := s.value.checkpoints.value;
    RowsAreSound(rows);
    if AllRead(rows) { RepeatedId(rows); }
  }

  /** Rows that can all be read have no other problem than a repeated id. */
  lemma {:induction false} RepeatedId(rows: seq<Option<Checkpoint>>)
    requires AllRead(rows)
    ensures RowsProblem(rows) != "" ==> RowsProblem(rows) == "management_snapshot_unavailable"
  {
    if rows != [] { RepeatedId(rows[..|rows| - 1]); }
  }

  /** The answers of an admitted apply on the checkpoint it names. */
  lemma ApplyRefusals(c: Command, s: Option<Snapshot>, row: Checkpoint)
    requires c.request.Apply? && Admitted(c, s) && Selects(s.value, c.request.checkpointId, row)
    requires c.request.vmName.Some? && c.request.checkpointName.Some? && row.name.Some? && row.canApply.Some?
    ensures c.request.count != 3 ==> Verdict(c, s) == "management_confirmation_mismatch"
    ensures c.request.vmName != Some(c.expectedName) ==> Verdict(c, s) == "management_confirmation_mismatch"
    ensures c.request.checkpointName != row.name ==> Verdict(c, s) == "management_confirmation_mismatch"
    ensures c.request.count == 3 && c.request.vmName == Some(c.expectedName) && c.request.checkpointName == row.name && row.canApply == Some(false) ==>
              Verdict(c, s) == "management_operation_unsupported"
    ensures ApplyConfirmed(c, row) && s.value.state != Some("stopped") ==> Verdict(c, s) == "invalid_vm_state"
  {
    hide HeadVerdict, Admitted, Selects, CheckpointVerdict;
    HeadIsAdmission(c, s);
    HeadIsReadable(c, s);
    SelectedDecides(c, s.value, s.value.state.value, row);
  }

  /** The answers of an admitted delete on the checkpoint it names. */
  lemma DeleteRefusals(c: Command, s: Option<Snapshot>, row: Checkpoint)
    requires c.request.Delete? && Admitted(c, s) && Selects(s.value, c.request.checkpointId, row)
    requires row.canDelete.Some? && c.request.acknowledged.Some?
    ensures c.request.count != 2 || row.canDelete == Some(false) ==> Verdict(c, s) == "management_operation_unsupported"
    ensures c.request.count == 2 && row.canDelete == Some(true) && !ValidAcknowledgement(c.request.acknowledged.value) ==>
              Verdict(c, s) == "invalid_management_command"
    ensures s.value.checkpoints.Some?
    ensures c.request.count == 2 && row.canDelete == Some(true) && ValidAcknowledgement(c.request.acknowledged.value)
            && Elements(c.request.acknowledged.value) != Subtree(ParentMap(Readable(s.value.checkpoints.value)), row.id) ==>
              Verdict(c, s) == "management_checkpoint_tree_changed"
    ensures DeleteAcknowledged(c, s.value, row) && !RunningOrStopped(s.value) ==> Verdict(c, s) == "invalid_vm_state"
  {
    hide HeadVerdict, Admitted, Selects, CheckpointVerdict, ValidAcknowledgement, Elements, Subtree, ParentMap, Readable;
    HeadIsAdmission(c, s);
    HeadIsReadable(c, s);
    SelectedDecides(c, s.value, s.value.state.value, row);
  }
}
