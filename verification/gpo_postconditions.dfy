/**
 What a managed GPO write may change: the conditions checked on the snapshots
 before and after it, and what they mean for links the GPO does not own.
 */
module GpoPostconditions {
  import opened Wrappers
  import opened GpoRecord

  /** The links of other GPOs, in order. */
  function Others(ls: seq<Link>, id: string): seq<Link> {
    if ls == [] then []
    else if ls[0].guid == id then Others(ls[1..], id)
    else [ls[0]] + Others(ls[1..], id)
  }

  /** Positions are not compared: the order of the list is. */
  function WithoutOrder(l: Link): Link { l.(order := 0) }

  function Unrelated(ls: seq<Link>, id: string): seq<Link> {
    var others := Others(ls, id);
    seq(|others|, i requires 0 <= i < |others| => WithoutOrder(others[i]))
  }

  function Renumbered(ls: seq<Link>): seq<Link> {
    seq(|ls|, i requires 0 <= i < |ls| => ls[i].(order := i + 1))
  }

  function FindByDn(ls: seq<Link>, dn: string): Option<Link> {
    if ls == [] then None else if Lower(ls[0].dn) == Lower(dn) then Some(ls[0]) else FindByDn(ls[1..], dn)
  }

  function FindByGuid(ls: seq<Link>, id: string): Option<Link> {
    if ls == [] then None else if ls[0].guid == id then Some(ls[0]) else FindByGuid(ls[1..], id)
  }

  function TargetKind(j: Job): Kind { if DomainTarget(j) then DomainKind else OuKind }

  predicate DeletePostconditions(before: Snapshot, after: Snapshot) {
    && before.policy.Some? && after.policy.None?
    && var id := before.policy.value.guid;
    && |before.ous| == |after.ous|
    && (forall n | 0 <= n < |before.ous| ::
          var x, y := before.ous[n], after.ous[n];
          x.dn == y.dn && x.guid == y.guid && x.blocked == y.blocked && x.inherited == y.inherited
          && y.links == Renumbered(Others(x.links, id)))
  }

  predicate KeptPolicy(j: Job, prior: Policy, g: Policy) {
    && g.securityDigest == prior.securityDigest
    && (!j.operation.ActivateManaged? ==>
          g.computerDs == prior.computerDs && g.computerSysvol == prior.computerSysvol
          && g.userDs == prior.userDs && g.userSysvol == prior.userSysvol)
    && (j.operation.DeactivateManaged? ==> g.links == prior.links)
  }

  predicate PlacedAt(j: Job, g: Policy, target: Ou, n: nat)
    requires n < |j.targets| == |j.orders|
  {
    var found := FindByDn(g.links, j.targets[n]);
    && found.Some?
    && found.value.kind == TargetKind(j) && found.value.domain == j.domainDns && !found.value.enforced
    && found.value.enabled == j.operation.ActivateManaged? && found.value.order == j.orders[n]
    && FindByGuid(target.links, g.guid) == found
  }

  predicate NamedAsExpected(j: Job, original: Option<Policy>, g: Policy) {
    var owned := original.Some? && j.ownerMarker == ManagedMarker(j);
    && (j.operation.ImportManaged? || j.operation.ActivateManaged? || (j.operation.ImportAndLink? && !owned) ==> g.name == j.displayName)
    && (j.operation.ImportAndLink? && owned ==> g.name == original.value.name)
  }

  predicate OwnedAsExpected(j: Job, before: Snapshot, after: Snapshot, g: Policy) {
    var original := before.policy;
    if j.operation.ActivateManaged? || original.None? || j.ownerMarker != ManagedMarker(j) then g.ownerSid == after.adminsSid
    else g.ownerSid == original.value.ownerSid
  }

  predicate EnabledAsExpected(j: Job, g: Policy) {
    j.operation.ActivateManaged? ==>
      j.scope.Some? && g.computerEnabled == (j.scope.value.Machine? || j.scope.value.WholeDomain?) && g.userEnabled == j.scope.value.User?
  }

  predicate WritePostconditions(j: Job, before: Snapshot, after: Snapshot) {
    && after.policy.Some?
    && var g := after.policy.value;
    && (before.policy.Some? ==> KeptPolicy(j, before.policy.value, g))
    && OwnedAsExpected(j, before, after, g)
    && |before.ous| == |after.ous|
    && (forall n | 0 <= n < |before.ous| ::
          var x, y := before.ous[n], after.ous[n];
          x.dn == y.dn && x.guid == y.guid && x.blocked == y.blocked
          && Unrelated(x.links, g.guid) == Unrelated(y.links, g.guid)
          && Unrelated(x.inherited, g.guid) == Unrelated(y.inherited, g.guid)
          && (j.operation.ImportManaged? || j.operation.DeactivateManaged? ==> x == y))
    && NamedAsExpected(j, before.policy, g)
    && (LinkOperation(j.operation) || j.operation.ActivateManaged? ==>
          |g.links| == |j.targets| && |after.ous| >= |j.targets| && |j.orders| == |j.targets|
          && forall n | 0 <= n < |j.targets| :: PlacedAt(j, g, after.ous[n], n))
    && EnabledAsExpected(j, g)
  }

  predicate Postconditions(j: Job, before: Snapshot, after: Snapshot) {
    && ValidSnapshot(after) && after.nameAvailable && after.adminsSid == before.adminsSid
    && if j.operation.DeleteManaged? then DeletePostconditions(before, after) else WritePostconditions(j, before, after)
  }

  // ----- What they mean for everybody else's links -----

  ghost predicate KeepsOthers(before: seq<Link>, after: seq<Link>, id: string) {
    Unrelated(before, id) == Unrelated(after, id)
  }

  /** Every target keeps its other links, direct and inherited, with their flags and their relative order. */
  ghost predicate KeepsForeignLinks(before: Snapshot, after: Snapshot, id: string) {
    && |before.ous| == |after.ous|
    && forall n | 0 <= n < |before.ous| ::
         && before.ous[n].dn == after.ous[n].dn && before.ous[n].guid == after.ous[n].guid
         && KeepsOthers(before.ous[n].links, after.ous[n].links, id)
         && KeepsOthers(before.ous[n].inherited, after.ous[n].inherited, id)
  }

  lemma {:induction false} OthersHaveOthers(ls: seq<Link>, id: string)
    ensures forall i | 0 <= i < |Others(ls, id)| :: Others(ls, id)[i].guid != id
  {
    if ls != [] { OthersHaveOthers(ls[1..], id); }
  }

  lemma {:induction false} OthersOfOthers(ls: seq<Link>, id: string)
    requires forall i | 0 <= i < |ls| :: ls[i].guid != id
    ensures Others(ls, id) == ls
  {
    if ls != [] { OthersOfOthers(ls[1..], id); }
  }

  lemma RenumberedKeepsOthers(ls: seq<Link>, id: string)
    ensures KeepsOthers(ls, Renumbered(Others(ls, id)), id)
  {
    var others := Others(ls, id);
    OthersHaveOthers(ls, id);
    OthersOfOthers(Renumbered(others), id);
  }

  /** The checks after a write imply that no other GPO's link was touched on any target. */
  lemma PostconditionsKeepForeignLinks(j: Job, before: Snapshot, after: Snapshot)
    requires Postconditions(j, before, after)
    ensures KeepsForeignLinks(before, after, if j.operation.DeleteManaged? then before.policy.value.guid else after.policy.value.guid)
  {
    if j.operation.DeleteManaged? {
      var id := before.policy.value.guid;
      forall n | 0 <= n < |before.ous| ensures KeepsOthers(before.ous[n].links, after.ous[n].links, id) {
        RenumberedKeepsOthers(before.ous[n].links, id);
      }
    }
  }

  lemma {:induction false} ForeignLinkIsUnrelated(ls: seq<Link>, l: Link, id: string)
    requires l.guid != id
    ensures l in ls ==> WithoutOrder(l) in Unrelated(ls, id)
  {
    if l in ls {
      if ls[0].guid != id && ls[0] == l {
        assert Others(ls, id)[0] == l;
        assert Unrelated(ls, id)[0] == WithoutOrder(l);
      } else {
        ForeignLinkIsUnrelated(ls[1..], l, id);
        var k :| 0 <= k < |Unrelated(ls[1..], id)| && Unrelated(ls[1..], id)[k] == WithoutOrder(l);
        if ls[0].guid != id { assert Unrelated(ls, id)[k + 1] == WithoutOrder(l); }
      }
    }
  }

  lemma {:induction false} UnrelatedIsForeignLink(ls: seq<Link>, k: nat, id: string)
    requires k < |Unrelated(ls, id)|
    ensures exists m :: m in ls && m.guid != id && WithoutOrder(m) == Unrelated(ls, id)[k]
  {
    if ls[0].guid == id {
      UnrelatedIsForeignLink(ls[1..], k, id);
      var m :| m in ls[1..] && m.guid != id && WithoutOrder(m) == Unrelated(ls[1..], id)[k];
      assert m in ls;
    } else if k == 0 {
      assert Others(ls, id)[0] == ls[0] && ls[0] in ls;
    } else {
      assert Unrelated(ls, id)[k] == Unrelated(ls[1..], id)[k - 1];
      UnrelatedIsForeignLink(ls[1..], k - 1, id);
      var m :| m in ls[1..] && m.guid != id && WithoutOrder(m) == Unrelated(ls[1..], id)[k - 1];
      assert m in ls;
    }
  }

  /** A link of another GPO that was there is still there, the same but for its position. */
  lemma LinkSurvives(before: seq<Link>, after: seq<Link>, l: Link, id: string)
    requires KeepsOthers(before, after, id) && l in before && l.guid != id
    ensures exists m :: m in after && m.guid != id && WithoutOrder(m) == WithoutOrder(l)
  {
    hide Unrelated;
    ForeignLinkIsUnrelated(before, l, id);
    var k :| 0 <= k < |Unrelated(after, id)| && Unrelated(after, id)[k] == WithoutOrder(l);
    UnrelatedIsForeignLink(after, k, id);
  }

  /** Where others are kept, every link of another GPO is still there, and none of them is new. */
  lemma ForeignLinkSurvives(before: seq<Link>, after: seq<Link>, id: string)
    requires KeepsOthers(before, after, id)
    ensures forall l | l in before && l.guid != id :: exists m :: m in after && m.guid != id && WithoutOrder(m) == WithoutOrder(l)
    ensures forall m | m in after && m.guid != id :: exists l :: l in before && l.guid != id && WithoutOrder(l) == WithoutOrder(m)
  {
    hide Unrelated, WithoutOrder;
    forall l | l in before && l.guid != id ensures exists m :: m in after && m.guid != id && WithoutOrder(m) == WithoutOrder(l) {
      LinkSurvives(before, after, l, id);
    }
    forall m | m in after && m.guid != id ensures exists l :: l in before && l.guid != id && WithoutOrder(l) == WithoutOrder(m) {
      LinkSurvives(after, before, m, id);
    }
  }
}
