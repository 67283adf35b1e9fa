/**
 What the checks of a managed GPO job accept, told field by field: the state
 before the approval is used, the state between import and link, and, for each
 operation, what the last snapshot must show.
 */
module GpoStateLaws {
  import opened Wrappers
  import opened GpoRecord
  import opened GpoPostconditions
  import opened GpoProtocolSteps
  import opened GpoManaged

  // ----- Before the approval is used -----

  /** The GPO is the one of the job; only the inspection of a deletion may find that there is none. */
  ghost predicate RightGpo(j: Job, s: Snapshot) {
    if s.policy.Some? then s.policy.value.guid == j.gpoGuid
    else j.gpoGuid == "" || (Inspection(j) && j.intended.DeleteManaged?)
  }

  ghost predicate RightTargets(j: Job, s: Snapshot) {
    && |s.ous| == |j.targets|
    && (forall n | 0 <= n < |s.ous| :: Lower(s.ous[n].dn) == Lower(j.targets[n]))
    && (DomainTarget(j) ==> forall n | 0 <= n < |s.ous| :: s.ous[n].guid == j.domainGuid && s.ous[n].inherited == [])
  }

  /** The position exists among the other GPOs' links, of which there is room for one more. */
  ghost predicate RoomAt(ls: seq<Link>, id: string, order: int) {
    && (forall a, b | 0 <= a < b < |ls| :: ls[a].guid != id || ls[b].guid != id)
    && |Others(ls, id)| + 1 <= 128 && 1 <= order <= |Others(ls, id)| + 1
  }

  ghost predicate Writes(j: Job) { !j.intended.ImportManaged? || j.gpoGuid == "" || j.ownerMarker != ManagedMarker(j) }

  /** What is asked of an existing GPO whatever the operation. */
  ghost predicate SoundPolicy(j: Job, g: Policy) {
    && g.description == j.ownerMarker && g.wmiFilter == "" && g.computerDs == g.computerSysvol && g.userDs == g.userSysvol
    && (j.ownerMarker != ManagedMarker(j) ==> g.links == [])
    && (j.ownerMarker != ManagedMarker(j) || j.intended.LinkManaged? || j.intended.ImportAndLink? ==> !g.computerEnabled && !g.userEnabled)
  }

  /** Every link is an unenforced one of the domain on one of the targets. */
  ghost predicate OwnLinksOnly(j: Job, g: Policy) {
    forall i | 0 <= i < |g.links| ::
      && g.links[i].kind == (if DomainTarget(j) then DomainKind else OuKind) && g.links[i].domain == j.domainDns && !g.links[i].enforced
      && exists t :: 0 <= t < |j.targets| && Lower(j.targets[t]) == Lower(g.links[i].dn)
  }

  ghost predicate LinkedAt(g: Policy, name: string) { exists i :: 0 <= i < |g.links| && Lower(g.links[i].dn) == name }

  ghost predicate EveryTargetLinked(j: Job, g: Policy) {
    forall t | 0 <= t < |j.targets| :: LinkedAt(g, Lower(j.targets[t]))
  }

  ghost predicate LinkedInOrder(j: Job, g: Policy) {
    forall t | 0 <= t < |j.targets| && t < |j.orders| ::
      FindByDn(g.links, j.targets[t]).Some? && FindByDn(g.links, j.targets[t]).value.order == j.orders[t]
  }

  ghost predicate DistinctTargets(j: Job) {
    forall a, b | 0 <= a < b < |j.targets| :: Lower(j.targets[a]) != Lower(j.targets[b])
  }

  ghost predicate AcceptedPolicy(j: Job, g: Policy) {
    && SoundPolicy(j, g)
    && (!j.intended.ImportManaged? ==> OwnLinksOnly(j, g))
    && (j.intended.ActivateManaged? ==> EveryTargetLinked(j, g) && (!Inspection(j) && j.schema != 4 ==> LinkedInOrder(j, g)))
  }

  function Folded(names: seq<string>): set<string> { set t | 0 <= t < |names| :: Lower(names[t]) }

  lemma {:induction false} NamesCounted(names: seq<string>)
    requires forall a, b | 0 <= a < b < |names| :: Lower(names[a]) != Lower(names[b])
    ensures |Folded(names)| == |names|
  {
    hide Lower;
    if names == [] {
      assert Folded(names) == {};
    } else {
      var n := |names| - 1;
      NamesCounted(names[..n]);
      assert Folded(names) == Folded(names[..n]) + {Lower(names[n])};
    }
  }

  lemma SameSize<T>(some: set<T>, all: set<T>)
    requires some <= all
    ensures |some| == |all| <==> some == all
  {
    if some != all {
      var x :| x in all && x !in some;
      SizeOfSubset(some, all - {x});
    }
  }

  lemma {:induction false} SizeOfSubset<T>(some: set<T>, all: set<T>)
    requires some <= all
    ensures |some| <= |all|
    decreases some
  {
    if some != {} {
      var x :| x in some;
      SizeOfSubset(some - {x}, all - {x});
    }
  }

  lemma LinkedNames(g: Policy, name: string)
    ensures name in LinkedDns(g.links) <==> LinkedAt(g, name)
  {
    hide Lower;
    if name in LinkedDns(g.links) {
      var l :| l in g.links && Lower(l.dn) == name;
      var i :| 0 <= i < |g.links| && g.links[i] == l;
    }
    if LinkedAt(g, name) {
      var i :| 0 <= i < |g.links| && Lower(g.links[i].dn) == name;
      assert g.links[i] in g.links;
    }
  }

  lemma LinkedIsTarget(j: Job, g: Policy, name: string)
    requires OwnLinksOnly(j, g) && LinkedAt(g, name)
    ensures name in Folded(j.targets)
  {
    hide Lower, DomainTarget;
    var i :| 0 <= i < |g.links| && Lower(g.links[i].dn) == name;
    var t :| 0 <= t < |j.targets| && Lower(j.targets[t]) == Lower(g.links[i].dn);
  }

  /** Counting the linked names is enough: every target is linked exactly when there are as many as targets. */
  lemma LinkedNamesCover(j: Job, g: Policy)
    requires DistinctTargets(j) && OwnLinksOnly(j, g)
    ensures |LinkedDns(g.links)| == |j.targets| <==> EveryTargetLinked(j, g)
  {
    hide Lower, LinkedAt, LinkedDns, OwnLinksOnly;
    var linked, names := LinkedDns(g.links), Folded(j.targets);
    NamesCounted(j.targets);
    forall x | x in linked ensures x in names {
      LinkedNames(g, x);
      LinkedIsTarget(j, g, x);
    }
    SameSize(linked, names);
    if linked == names {
      forall t | 0 <= t < |j.targets| ensures LinkedAt(g, Lower(j.targets[t])) { LinkedNames(g, Lower(j.targets[t])); }
    }
    if forall t | 0 <= t < |j.targets| :: LinkedAt(g, Lower(j.targets[t])) {
      forall x | x in names ensures x in linked { LinkedNames(g, x); }
    }
  }

  lemma OwnLinks(j: Job, g: Policy)
    ensures OwnLinksOnly(j, g) <==> forall i | 0 <= i < |g.links| :: ExistingLinkFits(j, g.links[i])
  {
    hide Lower, DomainTarget;
  }

  /** An existing GPO is accepted exactly when it is sound and its links are those that the operation starts from. */
  lemma PolicyIsAccepted(j: Job, g: Policy)
    requires ManagedOperation(j.intended) && DistinctTargets(j)
    ensures PolicyProblem(j, g).None? <==> AcceptedPolicy(j, g)
  {
    hide OwnLinksOnly, EveryTargetLinked, DistinctTargets, ExistingLinkFits, LinkedDns, FindByDn, ManagedMarker, Inspection;
    OwnLinks(j, g);
    if OwnLinksOnly(j, g) { LinkedNamesCover(j, g); }
  }

  lemma RoomFits(ls: seq<Link>, id: string, order: int)
    ensures PositionFits(ls, id, order) <==> RoomAt(ls, id, order)
  {
    OwnCounted(ls, id);
  }

  lemma {:induction false} OwnCounted(ls: seq<Link>, id: string)
    ensures CountOwn(ls, id) == |ls| - |Others(ls, id)|
    ensures CountOwn(ls, id) == 0 <==> forall i | 0 <= i < |ls| :: ls[i].guid != id
    ensures CountOwn(ls, id) <= 1 <==> forall a, b | 0 <= a < b < |ls| :: ls[a].guid != id || ls[b].guid != id
  {
    if ls != [] {
      var rest := ls[1..];
      OwnCounted(rest, id);
      assert forall i | 0 < i < |ls| :: ls[i] == rest[i - 1];
      assert forall i | 0 <= i < |rest| :: rest[i] == ls[i + 1];
    }
  }

  /** A state is accepted exactly when it is that of the job's GPO on the job's targets, with room for what is to be written. */
  lemma StateIsAccepted(j: Job, s: Snapshot, fits: bool)
    requires ManagedOperation(j.intended) && DistinctTargets(j) && |j.orders| == |j.targets|
    ensures StateProblem(j, s, fits).None? <==>
              && ValidSnapshot(s) && RightGpo(j, s) && s.nameAvailable && RightTargets(j, s)
              && (j.intended.LinkManaged? || j.intended.ImportAndLink? ==>
                    forall n | 0 <= n < |s.ous| :: RoomAt(s.ous[n].links, j.gpoGuid, j.orders[n]))
              && (Writes(j) ==> fits)
              && (s.policy.Some? ==> AcceptedPolicy(j, s.policy.value))
  {
    hide ValidSnapshot, AcceptedPolicy, DistinctTargets, PolicyProblem, PositionFits, RoomAt, ManagedMarker, DomainTarget, Lower, Inspection;
    if ValidSnapshot(s) { GuidIsNamed(s); }
    if s.policy.Some? { PolicyIsAccepted(j, s.policy.value); }
    forall n | 0 <= n < |s.ous| && n < |j.orders|
      ensures PositionFits(s.ous[n].links, j.gpoGuid, j.orders[n]) <==> RoomAt(s.ous[n].links, j.gpoGuid, j.orders[n])
    {
      RoomFits(s.ous[n].links, j.gpoGuid, j.orders[n]);
    }
  }

  lemma GuidIsNamed(s: Snapshot)
    requires ValidSnapshot(s)
    ensures s.policy.Some? ==> s.policy.value.guid != ""
  {
  }

  /** The code of each state that is not accepted, where everything asked earlier is met. */
  lemma StateRefusals(j: Job, s: Snapshot, fits: bool)
    requires ManagedOperation(j.intended) && |j.orders| == |j.targets|
    ensures !ValidSnapshot(s) || !RightGpo(j, s) ==> StateProblem(j, s, fits) == Some(Known("gpo_state_changed"))
    ensures ValidSnapshot(s) && RightGpo(j, s) && !s.nameAvailable ==> StateProblem(j, s, fits) == Some(Known("gpo_name_collision"))
    ensures ValidSnapshot(s) && RightGpo(j, s) && s.nameAvailable && !RightTargets(j, s) ==> StateProblem(j, s, fits) == Some(Known("gpo_target_invalid"))
    ensures ValidSnapshot(s) && RightGpo(j, s) && s.nameAvailable && RightTargets(j, s) && LinkOperation(j.intended) ==>
              (exists n :: 0 <= n < |s.ous| && !RoomAt(s.ous[n].links, j.gpoGuid, j.orders[n])) ==>
                StateProblem(j, s, fits) == Some(Known("gpo_link_conflict"))
    ensures ValidSnapshot(s) && RightGpo(j, s) && s.nameAvailable && RightTargets(j, s) && !LinkOperation(j.intended) && Writes(j) && !fits ==>
              StateProblem(j, s, fits) == Some(Known("gpo_target_invalid"))
  {
    hide ValidSnapshot, PolicyProblem, PositionFits, RoomAt, ManagedMarker, DomainTarget, Lower, Inspection;
    if ValidSnapshot(s) { GuidIsNamed(s); }
    forall n | 0 <= n < |s.ous| && n < |j.orders|
      ensures PositionFits(s.ous[n].links, j.gpoGuid, j.orders[n]) <==> RoomAt(s.ous[n].links, j.gpoGuid, j.orders[n])
    {
      RoomFits(s.ous[n].links, j.gpoGuid, j.orders[n]);
    }
  }

  /** The code of each GPO that is not accepted, where everything asked earlier is met. */
  lemma PolicyRefusals(j: Job, g: Policy)
    requires ManagedOperation(j.intended)
    ensures g.description != j.ownerMarker ==> PolicyProblem(j, g) == Some(Known("gpo_unmanaged_target"))
    ensures g.description == j.ownerMarker && (g.wmiFilter != "" || g.computerDs != g.computerSysvol || g.userDs != g.userSysvol) ==>
              PolicyProblem(j, g) == Some(Known("gpo_state_changed"))
    ensures g.description == j.ownerMarker && g.wmiFilter == "" && g.computerDs == g.computerSysvol && g.userDs == g.userSysvol
            && (g.computerEnabled || g.userEnabled) && (LinkOperation(j.intended) || j.ownerMarker != ManagedMarker(j)) ==>
              PolicyProblem(j, g) == Some(Known("gpo_requires_disabled"))
    ensures g.description == j.ownerMarker && g.wmiFilter == "" && g.computerDs == g.computerSysvol && g.userDs == g.userSysvol
            && !g.computerEnabled && !g.userEnabled && j.ownerMarker != ManagedMarker(j) && g.links != [] ==>
              PolicyProblem(j, g) == Some(Known("gpo_unmanaged_target"))
    ensures SoundPolicy(j, g) && !j.intended.ImportManaged? && !OwnLinksOnly(j, g) ==> PolicyProblem(j, g) == Some(Known("gpo_link_conflict"))
    ensures SoundPolicy(j, g) && j.intended.ActivateManaged? && OwnLinksOnly(j, g) && DistinctTargets(j) && !EveryTargetLinked(j, g) ==>
              PolicyProblem(j, g) == Some(Known("gpo_link_conflict"))
  {
    hide OwnLinksOnly, EveryTargetLinked, DistinctTargets, ExistingLinkFits, LinkedDns, FindByDn, ManagedMarker, Inspection;
    OwnLinks(j, g);
    if OwnLinksOnly(j, g) && DistinctTargets(j) { LinkedNamesCover(j, g); }
  }

  // ----- Between the import and the link -----

  /** Nothing but this GPO changed, and it is the disabled one that was just prepared. */
  ghost predicate JustPrepared(j: Job, state: Snapshot, prepared: Snapshot, id: string) {
    && ValidSnapshot(prepared) && prepared.nameAvailable && prepared.ous == state.ous
    && prepared.policy.Some?
    && var g := prepared.policy.value;
    && g.guid == id && g.description == ManagedMarker(j) && g.wmiFilter == ""
    && g.computerDs == g.computerSysvol && g.userDs == g.userSysvol && !g.computerEnabled && !g.userEnabled
    && (j.gpoGuid == "" ==> g.name == j.displayName && g.links == [])
    && (j.gpoGuid != "" ==>
          && state.policy.Some?
          && (j.ownerMarker == ManagedMarker(j) ==> g == state.policy.value)
          && (j.ownerMarker != ManagedMarker(j) ==> g == state.policy.value.(name := j.displayName, description := ManagedMarker(j))))
  }

  lemma PreparedIsAccepted(j: Job, state: Snapshot, prepared: Snapshot, id: string)
    requires id != ""
    ensures PreparedProblem(j, state, prepared, id).None? <==> JustPrepared(j, state, prepared, id)
  {
    hide ValidSnapshot, ManagedMarker;
  }

  // ----- What the last snapshot must show, operation by operation -----

  /** The targets are the same and keep every link that is not of this GPO. */
  ghost predicate OthersKept(before: Snapshot, after: Snapshot, id: string) {
    && |before.ous| == |after.ous|
    && forall n | 0 <= n < |before.ous| ::
         var x, y := before.ous[n], after.ous[n];
         && x.dn == y.dn && x.guid == y.guid && x.blocked == y.blocked
         && Unrelated(x.links, id) == Unrelated(y.links, id) && Unrelated(x.inherited, id) == Unrelated(y.inherited, id)
  }

  /** A sound GPO of this identity and marker, with the security it had. */
  ghost predicate Managed(j: Job, before: Snapshot, g: Policy, id: string) {
    && g.guid == id && g.description == ManagedMarker(j) && g.wmiFilter == "" && g.computerDs == g.computerSysvol && g.userDs == g.userSysvol
    && (before.policy.Some? ==> g.securityDigest == before.policy.value.securityDigest)
  }

  ghost predicate SameVersions(before: Snapshot, g: Policy) {
    before.policy.Some? ==>
      var prior := before.policy.value;
      g.computerDs == prior.computerDs && g.computerSysvol == prior.computerSysvol && g.userDs == prior.userDs && g.userSysvol == prior.userSysvol
  }

  /** A GPO that is new or adopted belongs to the administrators; any other keeps its owner. */
  ghost predicate OwnerOf(j: Job, before: Snapshot, after: Snapshot, g: Policy) {
    && (before.policy.None? || j.ownerMarker != ManagedMarker(j) ==> g.ownerSid == after.adminsSid)
    && (before.policy.Some? && j.ownerMarker == ManagedMarker(j) ==> g.ownerSid == before.policy.value.ownerSid)
  }

  /** One link on each target, at the position of the job, unenforced, in the GPO's list and in the target's. */
  ghost predicate LinkedAsAsked(j: Job, after: Snapshot, g: Policy, enabled: bool) {
    && |g.links| == |j.targets| && |after.ous| >= |j.targets| && |j.orders| == |j.targets|
    && forall n | 0 <= n < |j.targets| ::
         var found := FindByDn(g.links, j.targets[n]);
         && found.Some? && found.value.kind == TargetKind(j) && found.value.domain == j.domainDns
         && !found.value.enforced && found.value.enabled == enabled && found.value.order == j.orders[n]
         && FindByGuid(after.ous[n].links, g.guid) == found
  }

  ghost predicate Readable(before: Snapshot, after: Snapshot) {
    ValidSnapshot(after) && after.nameAvailable && after.adminsSid == before.adminsSid
  }

  /** A prepared GPO: disabled, without links, under its name; no target changed. */
  lemma ImportShows(j: Job, before: Snapshot, after: Snapshot, id: string)
    requires j.operation.ImportManaged? && id != ""
    ensures FinalMet(j, before, after, id) <==>
              && Readable(before, after) && after.policy.Some?
              && var g := after.policy.value;
              && Managed(j, before, g, id) && SameVersions(before, g) && OwnerOf(j, before, after, g)
              && !g.computerEnabled && !g.userEnabled && g.links == [] && g.name == j.displayName && after.ous == before.ous
  {
    hide ValidSnapshot, ManagedMarker, Unrelated;
  }

  /** A linked GPO: disabled, with one disabled link on each target, every other link kept. */
  lemma LinkShows(j: Job, before: Snapshot, after: Snapshot, id: string)
    requires (j.operation.LinkManaged? || j.operation.ImportAndLink?) && id != ""
    ensures FinalMet(j, before, after, id) <==>
              && Readable(before, after) && after.policy.Some?
              && var g := after.policy.value;
              && Managed(j, before, g, id) && SameVersions(before, g) && OwnerOf(j, before, after, g)
              && !g.computerEnabled && !g.userEnabled && OthersKept(before, after, id) && LinkedAsAsked(j, after, g, false)
              && (j.operation.ImportAndLink? && (before.policy.None? || j.ownerMarker != ManagedMarker(j)) ==> g.name == j.displayName)
              && (j.operation.ImportAndLink? && before.policy.Some? && j.ownerMarker == ManagedMarker(j) ==> g.name == before.policy.value.name)
  {
    hide ValidSnapshot, ManagedMarker, Unrelated, FindByDn, FindByGuid, TargetKind;
    if after.policy.Some? { LinkedIsPlaced(j, after); }
  }

  lemma LinkedIsPlaced(j: Job, after: Snapshot)
    requires after.policy.Some?
    ensures LinkedAsAsked(j, after, after.policy.value, j.operation.ActivateManaged?) <==>
              && |after.policy.value.links| == |j.targets| && |after.ous| >= |j.targets| && |j.orders| == |j.targets|
              && forall n | 0 <= n < |j.targets| :: PlacedAt(j, after.policy.value, after.ous[n], n)
  {
    hide FindByDn, FindByGuid, TargetKind;
    var g := after.policy.value;
    if |after.ous| >= |j.targets| && |j.orders| == |j.targets| {
      forall n | 0 <= n < |j.targets|
        ensures PlacedAt(j, g, after.ous[n], n) <==>
                  var found := FindByDn(g.links, j.targets[n]);
                  && found.Some? && found.value.kind == TargetKind(j) && found.value.domain == j.domainDns
                  && !found.value.enforced && found.value.enabled == j.operation.ActivateManaged? && found.value.order == j.orders[n]
                  && FindByGuid(after.ous[n].links, g.guid) == found
      {
      }
    }
  }

  /** An active GPO: the sections of its scope and no others enabled, every link enabled, owned by the administrators. */
  lemma ActivateShows(j: Job, before: Snapshot, after: Snapshot, id: string)
    requires j.operation.ActivateManaged? && id != ""
    ensures FinalMet(j, before, after, id) <==>
              && Readable(before, after) && after.policy.Some?
              && var g := after.policy.value;
              && Managed(j, before, g, id) && g.ownerSid == after.adminsSid && g.name == j.displayName
              && OthersKept(before, after, id) && LinkedAsAsked(j, after, g, true)
              && match j.scope
                 case None => false
                 case Some(Machine) => g.computerEnabled && !g.userEnabled
                 case Some(WholeDomain) => g.computerEnabled && !g.userEnabled
                 case Some(User) => !g.computerEnabled && g.userEnabled
  {
    hide ValidSnapshot, ManagedMarker, Unrelated, FindByDn, FindByGuid, TargetKind;
    if after.policy.Some? { LinkedIsPlaced(j, after); }
  }

  /** An inactive GPO: both sections disabled, links and targets as they were. */
  lemma DeactivateShows(j: Job, before: Snapshot, after: Snapshot, id: string)
    requires j.operation.DeactivateManaged? && id != ""
    ensures FinalMet(j, before, after, id) <==>
              && Readable(before, after) && after.policy.Some?
              && var g := after.policy.value;
              && Managed(j, before, g, id) && SameVersions(before, g) && OwnerOf(j, before, after, g)
              && !g.computerEnabled && !g.userEnabled && after.ous == before.ous
              && (before.policy.Some? ==> g.links == before.policy.value.links)
  {
    hide ValidSnapshot, ManagedMarker, Unrelated;
  }

  /** A deleted GPO: gone, its links gone from every target, the others renumbered and otherwise as they were. */
  lemma DeleteShows(j: Job, before: Snapshot, after: Snapshot, id: string)
    requires j.operation.DeleteManaged?
    ensures FinalMet(j, before, after, id) <==>
              && Readable(before, after) && before.policy.Some? && after.policy.None? && |before.ous| == |after.ous|
              && forall n | 0 <= n < |before.ous| ::
                   after.ous[n] == before.ous[n].(usn := after.ous[n].usn, links := Renumbered(Others(before.ous[n].links, before.policy.value.guid)))
  {
    hide ValidSnapshot, Renumbered, Others;
  }

  // ----- Which directory calls belong to which operation -----

  /** Each call that writes is made by exactly one kind of job. */
  lemma CallsBelong(j: Job, call: Call)
    requires ValidJob(j) && j.schema >= 3 && !Inspection(j)
    ensures call in ManagedCalls(j) <==>
              match call
              case CreateCall => j.gpoGuid == ""
              case InitializeCall => j.gpoGuid == "" && (j.operation.ImportManaged? || j.operation.ImportAndLink?)
              case AdoptCall => j.gpoGuid != "" && j.ownerMarker != ManagedMarker(j)
              case LinkCall => j.operation.LinkManaged? || j.operation.ImportAndLink?
              case ActivateCall => j.operation.ActivateManaged?
              case DeactivateCall => j.operation.DeactivateManaged?
              case RemoveCall => j.operation.DeleteManaged?
              case _ => false
  {
    hide ValidUuid, IsHash, ValidSnapshot, UsableGpo, ManagedMarker, Lower;
  }

  /** The calls come in one order: a GPO is created before it is written to, and linked last. */
  lemma CallsInOrder(j: Job, a: nat, b: nat)
    requires ValidJob(j) && j.schema >= 3 && !Inspection(j) && a < b < |ManagedCalls(j)|
    ensures var calls := ManagedCalls(j);
            && calls[b] != CreateCall && calls[a] != LinkCall && calls[a] != calls[b] && |calls| <= 3
            && (calls[a] == CreateCall || calls[a] == InitializeCall || calls[a] == AdoptCall)
  {
    hide ValidUuid, IsHash, ValidSnapshot, UsableGpo, ManagedMarker, Lower;
  }
}
