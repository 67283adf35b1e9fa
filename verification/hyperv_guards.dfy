/**
 The preflight of a Hyper-V management command: it accepts a checkpoint
 command only on a checkpoint forest, and a delete only when the operator
 acknowledged exactly the subtree that goes with it.
 */
module HypervGuards {
  import opened Wrappers
  import opened HypervJournal

  /**
   What can be read of a document: `None` stands for a field that is missing or of the wrong kind, which makes the source
   throw when it gets there. `parent` is empty for a root.
   */
  datatype Checkpoint = Checkpoint(id: string, parent: string, name: Option<string>, canApply: Option<bool>, canDelete: Option<bool>)

  datatype Snapshot = Snapshot(vmId: Option<string>, vmName: Option<string>, revision: Option<string>,
                               settingsStatus: Option<string>, checkpointsStatus: Option<string>,
                               capabilities: map<Operation, bool>, state: Option<string>,
                               checkpointPolicy: Option<int>, checkpoints: Option<seq<Option<Checkpoint>>>)

  /** `count` is the number of parameters; `verdict` the outcome of the settings-patch validation, which is not part of this model. */
  datatype Request =
    | Look
    | Create(count: nat, policy: Option<string>)
    | Delete(count: nat, checkpointId: Option<string>, acknowledged: Option<seq<Option<string>>>)
    | Apply(count: nat, checkpointId: Option<string>, vmName: Option<string>, checkpointName: Option<string>)
    | Update(verdict: string)

  datatype Command = Command(vmId: string, expectedName: string, expectedRevision: string, request: Request)

  function OperationOf(r: Request): Operation {
    match r
    case Look => Inspect
    case Create(_, _) => CheckpointCreate
    case Delete(_, _, _) => CheckpointDelete
    case Apply(_, _, _, _) => CheckpointApply
    case Update(_) => SettingsUpdate
  }

  // ----- Forests, said without a walk -----

  type Parents = map<string, string>

  /** From `a`, going to the parent `n` times leads to `b`; a walk ends at the empty name. */
  ghost predicate Climbs(parents: Parents, a: string, b: string, n: nat)
    decreases n
  {
    if n == 0 then a == b
    else a != "" && a in parents && Climbs(parents, parents[a], b, n - 1)
  }

  ghost predicate IsAncestor(parents: Parents, ancestor: string, id: string) {
    exists n: nat :: n > 0 && Climbs(parents, id, ancestor, n)
  }

  ghost predicate Rooted(parents: Parents, id: string) {
    exists n: nat :: Climbs(parents, id, "", n)
  }

  /** Every named parent is a checkpoint, and no checkpoint is its own ancestor. */
  ghost predicate IsForest(parents: Parents) {
    && (forall id | id in parents && id != "" :: parents[id] == "" || parents[id] in parents)
    && (forall id | id in parents :: !IsAncestor(parents, id, id))
  }

  lemma {:induction false} ClimbsOn(parents: Parents, a: string, b: string, c: string, n: nat, m: nat)
    requires Climbs(parents, a, b, n) && Climbs(parents, b, c, m)
    ensures Climbs(parents, a, c, n + m)
    decreases n
  {
    if n > 0 { ClimbsOn(parents, parents[a], b, c, n - 1, m); }
  }

  lemma ClimbsStep(parents: Parents, a: string, b: string, n: nat)
    requires Climbs(parents, a, b, n) && b != "" && b in parents
    ensures Climbs(parents, a, parents[b], n + 1)
  {
    assert Climbs(parents, parents[b], parents[b], 0);
    ClimbsOn(parents, a, b, parents[b], n, 1);
  }

  /** A shorter walk from the same start is a stop on the longer one. */
  lemma {:induction false} ClimbsSplit(parents: Parents, a: string, b: string, c: string, n: nat, m: nat)
    requires Climbs(parents, a, b, n) && Climbs(parents, a, c, m) && n <= m
    ensures Climbs(parents, b, c, m - n)
    decreases n
  {
    if n > 0 { ClimbsSplit(parents, parents[a], b, c, n - 1, m - 1); }
  }

  lemma {:induction false} RootedHasNoCycle(parents: Parents, id: string, n: nat, m: nat)
    requires n > 0 && Climbs(parents, id, id, n) && Climbs(parents, id, "", m)
    ensures false
    decreases m
  {
    if n <= m {
      ClimbsSplit(parents, id, id, "", n, m);
      RootedHasNoCycle(parents, id, n, m - n);
    } else {
      ClimbsSplit(parents, id, "", id, m, n);
    }
  }

  lemma ParentIsAncestor(parents: Parents, cursor: string, visited: set<string>)
    requires cursor != "" && cursor in parents
    requires forall v | v in visited :: IsAncestor(parents, cursor, v)
    ensures forall v | v in visited + {cursor} :: IsAncestor(parents, parents[cursor], v)
  {
    assert Climbs(parents, cursor, cursor, 0);
    ClimbsStep(parents, cursor, cursor, 0);
    forall v | v in visited ensures IsAncestor(parents, parents[cursor], v) {
      var n: nat :| n > 0 && Climbs(parents, v, cursor, n);
      ClimbsStep(parents, v, cursor, n);
    }
  }

  /** Without cycles a walk that has left `visited` behind must end. */
  lemma {:induction false} WalkEnds(parents: Parents, cursor: string, visited: set<string>)
    requires IsForest(parents) && visited <= parents.Keys && (cursor == "" || cursor in parents)
    requires forall v | v in visited :: IsAncestor(parents, cursor, v)
    ensures Rooted(parents, cursor)
    decreases parents.Keys - visited
  {
    if cursor == "" {
      assert Climbs(parents, "", "", 0);
    } else {
      var next := parents[cursor];
      ParentIsAncestor(parents, cursor, visited);
      WalkEnds(parents, next, visited + {cursor});
      var n: nat :| Climbs(parents, next, "", n);
      assert Climbs(parents, cursor, "", n + 1);
    }
  }

  /** Walking every checkpoint up to a root is a complete test for being a forest. */
  lemma ForestIffRooted(parents: Parents)
    ensures IsForest(parents) <==> forall id | id in parents :: Rooted(parents, id)
  {
    if IsForest(parents) {
      forall id | id in parents ensures Rooted(parents, id) { WalkEnds(parents, id, {}); }
    }
    if forall id | id in parents :: Rooted(parents, id) {
      forall id | id in parents && id != "" ensures parents[id] == "" || parents[id] in parents {
        var n: nat :| Climbs(parents, id, "", n);
        assert Climbs(parents, parents[id], "", n - 1);
      }
      forall id | id in parents ensures !IsAncestor(parents, id, id) {
        var m: nat :| Climbs(parents, id, "", m);
        if IsAncestor(parents, id, id) {
          var n: nat :| n > 0 && Climbs(parents, id, id, n);
          RootedHasNoCycle(parents, id, n, m);
        }
      }
    }
  }

  // ----- The subtree a delete takes with it -----

  ghost predicate Descends(parents: Parents, id: string, root: string, n: nat)
    decreases n
  {
    if n == 0 then id == root
    else id in parents && Descends(parents, parents[id], root, n - 1)
  }

  /** The selected checkpoint and everything below it. */
  ghost function Subtree(parents: Parents, root: string): set<string> {
    set id | id in parents.Keys + {root} && exists n: nat :: Descends(parents, id, root, n)
  }

  lemma {:induction false} ClosedHoldsSubtree(parents: Parents, root: string, closed: set<string>, id: string, n: nat)
    requires root in closed && Descends(parents, id, root, n)
    requires forall c | c in parents && parents[c] in closed :: c in closed
    ensures id in closed
    decreases n
  {
    if n > 0 { ClosedHoldsSubtree(parents, root, closed, parents[id], n - 1); }
  }

  /** Grows the selected checkpoint by children of what it holds until a pass adds nothing. */
  method Affected(parents: Parents, selected: string) returns (affected: set<string>)
    requires selected in parents
    ensures affected == Subtree(parents, selected)
  {
    affected := {selected};
    assert Descends(parents, selected, selected, 0);
    var growing := true;
    while growing
      invariant selected in affected && affected <= Subtree(parents, selected)
      invariant !growing ==> forall id | id in parents && parents[id] in affected :: id in affected
      decreases Subtree(parents, selected) - affected, growing
    {
      var before := affected;
      var keys := parents.Keys;
      while keys != {}
        invariant keys <= parents.Keys && before <= affected <= Subtree(parents, selected)
        invariant forall id | id in parents && id !in keys && parents[id] in before :: id in affected
        decreases keys
      {
        var id :| id in keys;
        if parents[id] in affected {
          ghost var n: nat :| Descends(parents, parents[id], selected, n);
          assert Descends(parents, id, selected, n + 1);
          affected := affected + {id};
        }
        keys := keys - {id};
      }
      growing := affected != before;
    }
    forall id | id in Subtree(parents, selected) ensures id in affected {
      var n: nat :| Descends(parents, id, selected, n);
      ClosedHoldsSubtree(parents, selected, affected, id, n);
    }
  }

  // ----- The guard -----

  const INVALID := "invalid_management_command"
  const UNAVAILABLE := "management_snapshot_unavailable"
  const UNSUPPORTED := "management_operation_unsupported"

  ghost predicate DistinctIds(cps: seq<Checkpoint>) {
    forall i, j | 0 <= i < j < |cps| :: cps[i].id != cps[j].id
  }

  ghost predicate HasId(cps: seq<Checkpoint>, id: string) { exists k :: 0 <= k < |cps| && cps[k].id == id }

  function ParentMap(cps: seq<Checkpoint>): Parents {
    if cps == [] then map[]
    else var last := cps[|cps| - 1]; ParentMap(cps[..|cps| - 1])[last.id := last.parent]
  }

  function Readable(rows: seq<Option<Checkpoint>>): seq<Checkpoint> {
    if rows == [] then []
    else
      var front := Readable(rows[..|rows| - 1]);
      if rows[|rows| - 1].Some? then front + [rows[|rows| - 1].value] else front
  }

  /** The first row that cannot be read, or repeats an id, decides; empty when there is none. */
  function RowsProblem(rows: seq<Option<Checkpoint>>): string {
    if rows == [] then ""
    else
      var front, last := rows[..|rows| - 1], rows[|rows| - 1];
      if RowsProblem(front) != "" then RowsProblem(front)
      else if last.None? then INVALID
      else if last.value.id in ParentMap(Readable(front)) then UNAVAILABLE
      else ""
  }

  lemma {:induction false} ParentMapHasIds(cps: seq<Checkpoint>, id: string)
    ensures id in ParentMap(cps) <==> HasId(cps, id)
  {
    if cps != [] {
      var n := |cps| - 1;
      ParentMapHasIds(cps[..n], id);
      if HasId(cps[..n], id) {
        var k :| 0 <= k < n && cps[..n][k].id == id;
        assert cps[k].id == id;
      }
      if HasId(cps, id) && cps[n].id != id {
        var k :| 0 <= k < |cps| && cps[k].id == id;
        assert cps[..n][k].id == id;
      }
    }
  }

  /** The map gives every checkpoint of a duplicate-free list its own parent. */
  lemma {:induction false} ParentMapGivesParents(cps: seq<Checkpoint>, k: nat)
    requires DistinctIds(cps) && k < |cps|
    ensures cps[k].id in ParentMap(cps) && ParentMap(cps)[cps[k].id] == cps[k].parent
  {
    var n := |cps| - 1;
    if k < n {
      assert cps[..n][k] == cps[k];
      ParentMapGivesParents(cps[..n], k);
    }
  }

  predicate AllRead(rows: seq<Option<Checkpoint>>) { forall i | 0 <= i < |rows| :: rows[i].Some? }

  lemma AllReadOneMore(rows: seq<Option<Checkpoint>>)
    requires rows != []
    ensures AllRead(rows) <==> AllRead(rows[..|rows| - 1]) && rows[|rows| - 1].Some?
  {
    var n := |rows| - 1;
    if AllRead(rows[..n]) && rows[n].Some? {
      forall i | 0 <= i < |rows| ensures rows[i].Some? { if i < n { assert rows[..n][i].Some?; } }
    }
  }

  /** Rows are without problem exactly when all can be read and no id repeats. */
  lemma {:induction false} RowsAreSound(rows: seq<Option<Checkpoint>>)
    ensures RowsProblem(rows) == "" <==> AllRead(rows) && DistinctIds(Readable(rows))
  {
    hide AllRead, DistinctIds, HasId, ParentMap;
    if rows == [] {
      NoRows();
    } else {
      var n := |rows| - 1;
      RowsAreSound(rows[..n]);
      AllReadOneMore(rows);
      if rows[n].Some? {
        ParentMapHasIds(Readable(rows[..n]), rows[n].value.id);
        DistinctOneMore(Readable(rows[..n]), rows[n].value);
      }
    }
  }

  lemma NoRows()
    ensures AllRead([]) && DistinctIds([])
  {
  }

  lemma DistinctOneMore(cps: seq<Checkpoint>, cp: Checkpoint)
    ensures DistinctIds(cps + [cp]) <==> DistinctIds(cps) && !HasId(cps, cp.id)
  {
    var all := cps + [cp];
    if DistinctIds(all) {
      forall i, j | 0 <= i < j < |cps| ensures cps[i].id != cps[j].id { assert all[i] == cps[i] && all[j] == cps[j]; }
      forall k | 0 <= k < |cps| ensures cps[k].id != cp.id { assert all[k] == cps[k] && all[|cps|] == cp; }
    }
  }

  ghost predicate ValidAcknowledgement(ids: seq<Option<string>>) {
    && 0 < |ids| <= 256
    && (forall i | 0 <= i < |ids| :: ids[i].Some? && IsGuid(ids[i].value))
    && (forall i, j | 0 <= i < j < |ids| :: ids[i] != ids[j])
  }

  ghost function Elements(ids: seq<Option<string>>): set<string> {
    set i | 0 <= i < |ids| && ids[i].Some? :: ids[i].value
  }

  function RunState(state: string): string {
    if state == "running" || state == "stopped" then "" else "invalid_vm_state"
  }

  ghost function ApplyVerdict(c: Command, row: Checkpoint, state: string): string
    requires c.request.Apply?
  {
    var r := c.request;
    if r.count != 3 then "management_confirmation_mismatch"
    else if r.vmName.None? then INVALID
    else if r.vmName.value != c.expectedName then "management_confirmation_mismatch"
    else if r.checkpointName.None? || row.name.None? then INVALID
    else if r.checkpointName != row.name then "management_confirmation_mismatch"
    else if row.canApply.None? then INVALID
    else if !row.canApply.value then UNSUPPORTED
    else if state == "stopped" then "" else "invalid_vm_state"
  }

  ghost function DeleteVerdict(c: Command, parents: Parents, row: Checkpoint, state: string): string
    requires c.request.Delete?
  {
    var r := c.request;
    if r.count != 2 then UNSUPPORTED
    else if row.canDelete.None? then INVALID
    else if !row.canDelete.value then UNSUPPORTED
    else if r.acknowledged.None? || !ValidAcknowledgement(r.acknowledged.value) then INVALID
    else if Elements(r.acknowledged.value) != Subtree(parents, row.id) then "management_checkpoint_tree_changed"
    else RunState(state)
  }

  /** What a checkpoint command must satisfy; the empty verdict accepts it. */
  ghost function CheckpointVerdict(c: Command, s: Snapshot, state: string): string
    requires c.request.Delete? || c.request.Apply?
  {
    var id := c.request.checkpointId;
    if id.None? || !IsGuid(id.value) || s.checkpoints.None? then INVALID
    else if RowsProblem(s.checkpoints.value) != "" then RowsProblem(s.checkpoints.value)
    else
      var cps := Readable(s.checkpoints.value);
      if !HasId(cps, id.value) then "management_checkpoint_not_found"
      else if !IsForest(ParentMap(cps)) then UNAVAILABLE
      else
        var k :| 0 <= k < |cps| && cps[k].id == id.value;
        if c.request.Apply? then ApplyVerdict(c, cps[k], state) else DeleteVerdict(c, ParentMap(cps), cps[k], state)
  }

  /** The checks before the operation is looked at; the empty result goes on. */
  ghost function HeadVerdict(c: Command, s: Option<Snapshot>): string {
    var operation := OperationOf(c.request);
    if !IsGuid(c.vmId) || |c.expectedRevision| != 64 || exists i :: 0 <= i < 64 && !LowerHex(c.expectedRevision[i]) then INVALID
    else if s.None? || s.value.vmId.None? then INVALID
    else if s.value.vmId.value != c.vmId then "vm_identity_conflict"
    else if s.value.vmName.None? then INVALID
    else if s.value.vmName.value != c.expectedName then "vm_identity_conflict"
    else if s.value.revision.None? then INVALID
    else if s.value.revision.value != c.expectedRevision then "management_revision_changed"
    else if s.value.settingsStatus.None? then INVALID
    else if s.value.settingsStatus.value != "collected" then UNAVAILABLE
    else if !operation.SettingsUpdate? && s.value.checkpointsStatus.None? then INVALID
    else if !operation.SettingsUpdate? && s.value.checkpointsStatus.value != "collected" then UNAVAILABLE
    else if operation !in s.value.capabilities then INVALID
    else if !s.value.capabilities[operation] then UNSUPPORTED
    else if s.value.state.None? then INVALID
    else ""
  }

  ghost function Verdict(c: Command, s: Option<Snapshot>): string {
    if HeadVerdict(c, s) != "" then HeadVerdict(c, s)
    else
      match c.request
      case Update(verdict) => verdict
      case Create(count, policy) =>
        if count != 1 || policy != Some("configured") || s.value.checkpointPolicy.None? then INVALID
        else if s.value.checkpointPolicy.value != 5 then "checkpoint_policy_unsupported"
        else RunState(s.value.state.value)
      case Look => UNSUPPORTED
      case _ => CheckpointVerdict(c, s.value, s.value.state.value)
  }

  lemma {:induction false} ProblemStays(rows: seq<Option<Checkpoint>>, k: nat)
    requires k <= |rows| && RowsProblem(rows[..k]) != ""
    ensures RowsProblem(rows) == RowsProblem(rows[..k])
    decreases |rows| - k
  {
    if k == |rows| {
      assert rows[..k] == rows;
    } else {
      assert rows[..k + 1][..k] == rows[..k];
      ProblemStays(rows, k + 1);
    }
  }

  lemma HasIdOneMore(cps: seq<Checkpoint>, cp: Checkpoint, id: string)
    ensures HasId(cps + [cp], id) <==> HasId(cps, id) || cp.id == id
  {
    var all := cps + [cp];
    assert all[|cps|] == cp;
    if k :| 0 <= k < |cps| && cps[k].id == id { assert all[k].id == id; }
    if k :| 0 <= k < |all| && all[k].id == id { if k < |cps| { assert cps[k].id == id; } }
  }

  /** Fills the parent map row by row; a row that cannot be read or repeats an id ends it. */
  method CollectParents(rows: seq<Option<Checkpoint>>, selectedId: string)
    returns (problem: string, parents: Parents, selected: Option<Checkpoint>)
    ensures problem == RowsProblem(rows)
    ensures problem == "" ==> parents == ParentMap(Readable(rows)) && (selected.Some? <==> HasId(Readable(rows), selectedId))
    ensures problem == "" && selected.Some? ==> selected.value in Readable(rows) && selected.value.id == selectedId
  {
    hide HasId;
    parents, selected := map[], None;
    assert rows[..0] == [] && !HasId([], selectedId) by { NoIds(selectedId); }
    for i := 0 to |rows|
      invariant RowsProblem(rows[..i]) == "" && parents == ParentMap(Readable(rows[..i]))
      invariant selected.Some? <==> HasId(Readable(rows[..i]), selectedId)
      invariant selected.Some? ==> selected.value in Readable(rows[..i]) && selected.value.id == selectedId
    {
      assert rows[..i + 1][..i] == rows[..i];
      if rows[i].None? || rows[i].value.id in parents {
        ProblemStays(rows, i + 1);
        return if rows[i].None? then INVALID else UNAVAILABLE, parents, selected;
      }
      var row := rows[i].value;
      ghost var cps := Readable(rows[..i]);
      assert Readable(rows[..i + 1]) == cps + [row] && (cps + [row])[..|cps|] == cps;
      HasIdOneMore(cps, row, selectedId);
      parents := parents[row.id := row.parent];
      if row.id == selectedId { selected := Some(row); }
    }
    assert rows[..|rows|] == rows;
    problem := "";
  }

  lemma NoIds(id: string)
    ensures !HasId([], id)
  {
  }

  /** Walks from every checkpoint to a root, refusing a missing parent or a repeated stop. */
  method CheckForest(parents: Parents) returns (ok: bool)
    ensures ok <==> IsForest(parents)
  {
    ForestIffRooted(parents);
    var keys := parents.Keys;
    while keys != {}
      invariant keys <= parents.Keys
      invariant forall id | id in parents && id !in keys :: Rooted(parents, id)
      decreases keys
    {
      var id :| id in keys;
      ok := Walk(parents, id);
      if !ok { return; }
      keys := keys - {id};
    }
    ok := true;
  }

  method Walk(parents: Parents, id: string) returns (ok: bool)
    ensures ok <==> Rooted(parents, id)
  {
    hide Rooted;
    var visited: set<string> := {};
    var cursor := id;
    ghost var steps: nat := 0;
    assert Walked(parents, id, id, {}, 0);
    hide Walked;
    while cursor != ""
      invariant Walked(parents, id, cursor, visited, steps)
      decreases parents.Keys - visited
    {
      if cursor !in parents || cursor in visited {
        NotRooted(parents, id, cursor, visited, steps);
        return false;
      }
      WalkStep(parents, id, cursor, visited, steps);
      visited := visited + {cursor};
      cursor, steps := parents[cursor], steps + 1;
    }
    RootReached(parents, id, visited, steps);
    ok := true;
  }

  ghost predicate Walked(parents: Parents, id: string, cursor: string, visited: set<string>, steps: nat) {
    && Climbs(parents, id, cursor, steps)
    && visited <= parents.Keys
    && (forall v | v in visited :: IsAncestor(parents, cursor, v))
  }

  lemma WalkStep(parents: Parents, id: string, cursor: string, visited: set<string>, steps: nat)
    requires Walked(parents, id, cursor, visited, steps)
    requires cursor != "" && cursor in parents && cursor !in visited
    ensures Walked(parents, id, parents[cursor], visited + {cursor}, steps + 1)
    ensures parents.Keys - (visited + {cursor}) < parents.Keys - visited
  {
    hide Climbs, IsAncestor;
    ParentIsAncestor(parents, cursor, visited);
    ClimbsStep(parents, id, cursor, steps);
  }

  lemma RootReached(parents: Parents, id: string, visited: set<string>, steps: nat)
    requires Walked(parents, id, "", visited, steps)
    ensures Rooted(parents, id)
  {
  }

  lemma NotRooted(parents: Parents, id: string, cursor: string, visited: set<string>, steps: nat)
    requires cursor != "" && Walked(parents, id, cursor, visited, steps)
    requires cursor !in parents || cursor in visited
    ensures !Rooted(parents, id)
  {
    if Rooted(parents, id) {
      var m: nat :| Climbs(parents, id, "", m);
      if steps <= m {
        ClimbsSplit(parents, id, cursor, "", steps, m);
        if cursor in parents {
          var n: nat :| n > 0 && Climbs(parents, cursor, cursor, n);
          RootedHasNoCycle(parents, cursor, n, m - steps);
        }
      } else {
        ClimbsSplit(parents, id, "", cursor, m, steps);
      }
    }
  }

  method CheckAcknowledgement(ids: seq<Option<string>>) returns (expected: Option<set<string>>)
    ensures expected.Some? <==> ValidAcknowledgement(ids)
    ensures expected.Some? ==> expected.value == Elements(ids)
  {
    if |ids| == 0 || |ids| > 256 { return None; }
    var seen: set<string> := {};
    for i := 0 to |ids|
      invariant seen == set k | 0 <= k < i && ids[k].Some? :: ids[k].value
      invariant forall k | 0 <= k < i :: ids[k].Some? && IsGuid(ids[k].value)
      invariant forall a, b | 0 <= a < b < i :: ids[a] != ids[b]
    {
      if ids[i].None? || !IsGuid(ids[i].value) { return None; }
      if ids[i].value in seen {
        ghost var k :| 0 <= k < i && ids[k].Some? && ids[k].value == ids[i].value;
        assert ids[k] == ids[i];
        return None;
      }
      seen := seen + {ids[i].value};
    }
    expected := Some(seen);
  }

  /** Identity, revision, collection status and capability, in this order; the empty result goes on. */
  method CheckHead(c: Command, s: Option<Snapshot>) returns (r: string)
    ensures r == HeadVerdict(c, s)
  {
    hide IsGuid;
    if !IsGuid(c.vmId) || |c.expectedRevision| != 64 { return INVALID; }
    for i := 0 to 64
      invariant forall k | 0 <= k < i :: LowerHex(c.expectedRevision[k])
    {
      if !LowerHex(c.expectedRevision[i]) { return INVALID; }
    }
    if s.None? || s.value.vmId.None? { return INVALID; }
    var d := s.value;
    if d.vmId.value != c.vmId { return "vm_identity_conflict"; }
    if d.vmName.None? { return INVALID; }
    if d.vmName.value != c.expectedName { return "vm_identity_conflict"; }
    if d.revision.None? { return INVALID; }
    if d.revision.value != c.expectedRevision { return "management_revision_changed"; }
    var operation := OperationOf(c.request);
    if d.settingsStatus.None? { return INVALID; }
    if d.settingsStatus.value != "collected" { return UNAVAILABLE; }
    if !operation.SettingsUpdate? {
      if d.checkpointsStatus.None? { return INVALID; }
      if d.checkpointsStatus.value != "collected" { return UNAVAILABLE; }
    }
    if operation !in d.capabilities { return INVALID; }
    if !d.capabilities[operation] { return UNSUPPORTED; }
    r := if d.state.None? then INVALID else "";
  }

  /** The empty result accepts the command; any other result is the reason it is refused. */
  method ValidateManagementCommand(c: Command, s: Option<Snapshot>) returns (r: string)
    ensures r == Verdict(c, s)
  {
    hide HeadVerdict, CheckpointVerdict;
    r := CheckHead(c, s);
    if r != "" { return; }
    HeadIsReadable(c, s);
    match c.request {
      case Update(verdict) => return verdict;
      case Create(count, policy) =>
        if count != 1 || policy != Some("configured") || s.value.checkpointPolicy.None? { return INVALID; }
        if s.value.checkpointPolicy.value != 5 { return "checkpoint_policy_unsupported"; }
        return RunState(s.value.state.value);
      case Look => return UNSUPPORTED;
      case _ => r := ValidateCheckpointCommand(c, s.value, s.value.state.value);
    }
  }

  lemma HeadIsReadable(c: Command, s: Option<Snapshot>)
    requires HeadVerdict(c, s) == ""
    ensures s.Some? && s.value.state.Some?
  {
  }

  method ValidateCheckpointCommand(c: Command, s: Snapshot, state: string) returns (r: string)
    requires c.request.Delete? || c.request.Apply?
    ensures r == CheckpointVerdict(c, s, state)
  {
    hide IsForest, Subtree, ParentMap, IsGuid, Readable, RowsProblem, HasId, ApplyVerdict, DeleteVerdict;
    var selectedId := c.request.checkpointId;
    if selectedId.None? || !IsGuid(selectedId.value) || s.checkpoints.None? { return INVALID; }
    var rows := s.checkpoints.value;
    var problem, parents, selected := CollectParents(rows, selectedId.value);
    if problem != "" { return problem; }
    if selected.None? { return "management_checkpoint_not_found"; }
    var row := selected.value;
    RowsAreSound(rows);
    SelectedIsUnique(Readable(rows), row);
    var forest := CheckForest(parents);
    if !forest { return UNAVAILABLE; }
    if c.request.Apply? { r := ValidateApply(c, row, state); } else { r := ValidateDelete(c, Readable(rows), parents, row, state); }
  }

  lemma SelectedIsUnique(cps: seq<Checkpoint>, row: Checkpoint)
    requires DistinctIds(cps) && row in cps
    ensures HasId(cps, row.id) && forall k | 0 <= k < |cps| && cps[k].id == row.id :: cps[k] == row
  {
    var j :| 0 <= j < |cps| && cps[j] == row;
    forall k | 0 <= k < |cps| && cps[k].id == row.id ensures k == j { }
  }

  method ValidateApply(c: Command, row: Checkpoint, state: string) returns (r: string)
    requires c.request.Apply?
    ensures r == ApplyVerdict(c, row, state)
  {
    var q := c.request;
    if q.count != 3 { return "management_confirmation_mismatch"; }
    if q.vmName.None? { return INVALID; }
    if q.vmName.value != c.expectedName { return "management_confirmation_mismatch"; }
    if q.checkpointName.None? || row.name.None? { return INVALID; }
    if q.checkpointName != row.name { return "management_confirmation_mismatch"; }
    if row.canApply.None? { return INVALID; }
    if !row.canApply.value { return UNSUPPORTED; }
    return if state == "stopped" then "" else "invalid_vm_state";
  }

  method ValidateDelete(c: Command, ghost cps: seq<Checkpoint>, parents: Parents, row: Checkpoint, state: string) returns (r: string)
    requires c.request.Delete? && parents == ParentMap(cps) && row in cps
    ensures r == DeleteVerdict(c, parents, row, state)
  {
    hide Subtree, ParentMap, ValidAcknowledgement, Elements, IsGuid;
    var q := c.request;
    if q.count != 2 { return UNSUPPORTED; }
    if row.canDelete.None? { return INVALID; }
    if !row.canDelete.value { return UNSUPPORTED; }
    if q.acknowledged.None? { return INVALID; }
    var expected := CheckAcknowledgement(q.acknowledged.value);
    if expected.None? { return INVALID; }
    SelectedIsKey(cps, row);
    var affected := Affected(parents, row.id);
    if expected.value != affected { return "management_checkpoint_tree_changed"; }
    r := RunState(state);
  }

  lemma SelectedIsKey(cps: seq<Checkpoint>, row: Checkpoint)
    requires row in cps
    ensures row.id in ParentMap(cps)
  {
    hide ParentMap;
    var k :| 0 <= k < |cps| && cps[k] == row;
    assert HasId(cps, row.id);
    ParentMapHasIds(cps, row.id);
  }

  /** An accepted delete names exactly the subtree of its checkpoint, in a forest of readable rows, on a running or stopped machine. */
  lemma AcceptedDelete(c: Command, s: Option<Snapshot>)
    requires c.request.Delete? && Verdict(c, s) == ""
    ensures s.Some? && s.value.checkpoints.Some? && c.request.checkpointId.Some? && c.request.acknowledged.Some?
    ensures var rows := s.value.checkpoints.value; var parents := ParentMap(Readable(rows)); var id := c.request.checkpointId.value;
            && AllRead(rows) && DistinctIds(Readable(rows))
            && |Readable(rows)| == |rows| && (forall i | 0 <= i < |rows| :: Readable(rows)[i] == rows[i].value)
            && IsForest(parents) && Elements(c.request.acknowledged.value) == Subtree(parents, id)
            && id in Elements(c.request.acknowledged.value)
    ensures s.value.state == Some("running") || s.value.state == Some("stopped")
  {
    hide HeadVerdict, ParentMap, Readable, RowsProblem, IsForest, ValidAcknowledgement, IsGuid, HasId;
    HeadIsReadable(c, s);
    var rows, id := s.value.checkpoints.value, c.request.checkpointId.value;
    RowsAreSound(rows);
    ReadableKeeps(rows);
    assert Descends(ParentMap(Readable(rows)), id, id, 0);
  }

  lemma {:induction false} ReadableKeeps(rows: seq<Option<Checkpoint>>)
    requires AllRead(rows)
    ensures |Readable(rows)| == |rows| && forall i | 0 <= i < |rows| :: Readable(rows)[i] == rows[i].value
  {
    if rows != [] { ReadableKeeps(rows[..|rows| - 1]); }
  }
}
