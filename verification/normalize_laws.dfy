/**
 What normalising comes to, told on the positions of the records in the input:
 when it fails, and what the control of each setting holds.
 */
module NormalizeLaws {
  import opened Wrappers
  import opened ManagementJsonText
  import opened NormalizeControls

  /** `j` is the next record of the same setting after `i`. */
  ghost predicate Follows(records: seq<Record>, i: nat, j: nat) {
    && i < j < |records| && records[i].identity == records[j].identity
    && forall k | i < k < j :: records[k].identity != records[i].identity
  }

  ghost predicate IsLast(records: seq<Record>, i: nat) {
    i < |records| && forall k | i < k < |records| :: records[k].identity != records[i].identity
  }

  /** Two records that follow each other disagree, are of one component, and come from different files. */
  ghost predicate Contradict(a: Record, b: Record) {
    && (a.payload.comparison != b.payload.comparison || a.payload.valueType != b.payload.valueType || a.payload.expected != b.payload.expected)
    && a.componentId == b.componentId && a.sourcePath != b.sourcePath
  }

  ghost predicate ContradictAt(records: seq<Record>, i: nat, j: nat) {
    Follows(records, i, j) && Contradict(records[i], records[j])
  }

  ghost predicate Contradiction(records: seq<Record>) { exists i: nat, j: nat :: ContradictAt(records, i, j) }

  /** How many records of the setting come before position `i`. */
  function Rank(records: seq<Record>, identity: string, i: nat): nat
    requires i <= |records|
  {
    |Group(records[..i], identity)|
  }

  lemma RankStep(records: seq<Record>, identity: string, i: nat)
    requires i < |records|
    ensures Rank(records, identity, i + 1) == Rank(records, identity, i) + if records[i].identity == identity then 1 else 0
    ensures records[i].identity == identity ==> Group(records[..i + 1], identity) == Group(records[..i], identity) + [records[i]]
    ensures records[i].identity != identity ==> Group(records[..i + 1], identity) == Group(records[..i], identity)
  {
    assert records[..i + 1] == records[..i] + [records[i]];
    GroupGrows(records[..i], records[i], identity);
  }

  lemma {:induction false} PrefixOfGroup(records: seq<Record>, identity: string, i: nat)
    requires i <= |records|
    ensures Group(records[..i], identity) <= Group(records, identity)
    decreases |records| - i
  {
    if i == |records| {
      assert records[..i] == records;
    } else {
      RankStep(records, identity, i);
      PrefixOfGroup(records, identity, i + 1);
    }
  }

  /** A record is in the group of its setting, at its rank. */
  lemma AtRank(records: seq<Record>, i: nat)
    requires i < |records|
    ensures var group := Group(records, records[i].identity); var rank := Rank(records, records[i].identity, i);
            rank < |group| && group[rank] == records[i]
  {
    RankStep(records, records[i].identity, i);
    PrefixOfGroup(records, records[i].identity, i + 1);
  }

  /** Without records of the setting in between the rank stays. */
  lemma {:induction false} RankStays(records: seq<Record>, identity: string, i: nat, j: nat)
    requires i <= j <= |records| && forall k | i <= k < j :: records[k].identity != identity
    ensures Rank(records, identity, j) == Rank(records, identity, i)
    decreases j - i
  {
    hide Rank;
    if i < j {
      RankStep(records, identity, j - 1);
      RankStays(records, identity, i, j - 1);
    }
  }

  lemma FollowersAreNeighbours(records: seq<Record>, i: nat, j: nat)
    requires Follows(records, i, j)
    ensures Rank(records, records[i].identity, j) == Rank(records, records[i].identity, i) + 1
  {
    hide Rank;
    RankStep(records, records[i].identity, i);
    RankStays(records, records[i].identity, i + 1, j);
  }

  lemma LastHasHighestRank(records: seq<Record>, i: nat)
    requires IsLast(records, i)
    ensures Rank(records, records[i].identity, i) + 1 == |Group(records, records[i].identity)|
  {
    var id := records[i].identity;
    RankStep(records, id, i);
    RankStays(records, id, i + 1, |records|);
    assert records[..|records|] == records;
  }

  lemma {:induction false} LastOfGroup(records: seq<Record>, identity: string) returns (k: nat)
    requires Group(records, identity) != []
    ensures IsLast(records, k) && records[k].identity == identity
    ensures Group(records, identity)[|Group(records, identity)| - 1] == records[k]
  {
    var n := |records| - 1;
    if records[n].identity == identity {
      k := n;
    } else {
      k := LastOfGroup(records[..n], identity);
    }
  }

  lemma ClashIsContradiction(a: Record, b: Record)
    ensures Clash(a, b) <==> Contradict(a, b)
  {
  }

  lemma FollowsInFront(front: seq<Record>, last: Record, i: nat, j: nat)
    requires j < |front|
    ensures Follows(front + [last], i, j) <==> Follows(front, i, j)
  {
    var records := front + [last];
    if Follows(records, i, j) {
      forall k | i < k < j ensures front[k].identity != front[i].identity { assert records[k] == front[k]; }
      assert records[i] == front[i] && records[j] == front[j];
    }
    if Follows(front, i, j) {
      forall k | i < k < j ensures records[k].identity != records[i].identity { assert records[k] == front[k]; }
    }
  }

  lemma FollowsLast(front: seq<Record>, last: Record, i: nat)
    requires IsLast(front, i) && front[i].identity == last.identity
    ensures Follows(front + [last], i, |front|)
  {
    var records := front + [last];
    forall k | i < k < |front| ensures records[k].identity != records[i].identity { assert records[k] == front[k]; }
  }

  lemma ContradictionGrows(front: seq<Record>, last: Record)
    ensures Contradiction(front + [last]) <==>
              Contradiction(front) || (Group(front, last.identity) != [] && Contradict(Group(front, last.identity)[|Group(front, last.identity)| - 1], last))
  {
    hide Contradict, Follows, IsLast, Group;
    var records, n := front + [last], |front|;
    var group := Group(front, last.identity);
    if i: nat, j: nat :| ContradictAt(front, i, j) {
      InRange(front, i, j);
      FollowsInFront(front, last, i, j);
      assert ContradictAt(records, i, j);
    }
    if group != [] {
      var k := LastOfGroup(front, last.identity);
      PositionOfLast(front, k);
      FollowsLast(front, last, k);
      if Contradict(front[k], last) { assert ContradictAt(records, k, n); }
    }
    if i: nat, j: nat :| ContradictAt(records, i, j) {
      InRange(records, i, j);
      if j < n {
        FollowsInFront(front, last, i, j);
        assert ContradictAt(front, i, j);
      } else {
        FrontIsLast(front, last, i);
        assert records[i] == front[i] && records[n] == last;
      }
    }
  }

  lemma InRange(records: seq<Record>, i: nat, j: nat)
    requires ContradictAt(records, i, j)
    ensures i < j < |records|
  {
  }

  lemma PositionOfLast(records: seq<Record>, i: nat)
    requires IsLast(records, i)
    ensures i < |records|
  {
  }

  lemma FrontIsLast(front: seq<Record>, last: Record, i: nat)
    requires Follows(front + [last], i, |front|)
    ensures var group := Group(front, last.identity); group != [] && group[|group| - 1] == front[i]
  {
    forall k | i < k < |front| ensures front[k].identity != front[i].identity { assert (front + [last])[k] == front[k]; }
    assert IsLast(front, i);
    AtRank(front, i);
    LastHasHighestRank(front, i);
  }

  /** Main result: normalising is refused exactly when some record contradicts the next one of its setting. */
  lemma {:induction false} ClashesAreContradictions(records: seq<Record>)
    ensures Clashes(records) <==> Contradiction(records)
  {
    hide Contradict, Clash, Contradiction, Group;
    if records == [] {
      NoContradiction();
    } else {
      var n := |records| - 1;
      ClashesAreContradictions(records[..n]);
      ContradictionGrows(records[..n], records[n]);
      assert records == records[..n] + [records[n]];
      var group := Group(records[..n], records[n].identity);
      if group != [] { ClashIsContradiction(group[|group| - 1], records[n]); }
    }
  }

  lemma NoContradiction()
    ensures !Contradiction([])
  {
  }

  /**
   What the control of a setting holds of the records: the value of the last one; every one of them, in their order, where
   the last is effective and any other says whether the next one agrees with it.
   */
  lemma ControlHolds(records: seq<Record>, i: nat)
    requires i < |records|
    ensures var id := records[i].identity; var group := Group(records, id); var rank := Rank(records, id, i);
            && group != []
            && var c := ControlOf(group);
            && c.identity == id && rank < |c.sources| && c.sources[rank].record == records[i] && records[i].componentId in c.components
            && (IsLast(records, i) <==> c.sources[rank].resolution == Effective)
            && (IsLast(records, i) ==> c.payload == records[i].payload)
            && (forall j: nat :: Follows(records, i, j) ==>
                  && Rank(records, id, j) == rank + 1
                  && (c.sources[rank].resolution == Equivalent <==> records[i].payload == records[j].payload)
                  && (c.sources[rank].resolution == Overridden <==> records[i].payload != records[j].payload))
  {
    hide Rank, Group, Components, Labelled;
    var id := records[i].identity;
    var group, rank := Group(records, id), Rank(records, id, i);
    AtRank(records, i);
    ControlSources(group);
    LabelAt(group, rank);
    ComponentsAreDistinct(group);
    assert HasComponent(group, records[i].componentId);
    GroupIsFilter(records, id);
    assert group[|group| - 1] in group;
    LastIsHighest(records, i);
    forall j: nat | Follows(records, i, j)
      ensures Rank(records, id, j) == rank + 1 && rank + 1 < |group| && group[rank + 1] == records[j]
    {
      AtRank(records, j);
      FollowersAreNeighbours(records, i, j);
    }
  }

  lemma LastIsHighest(records: seq<Record>, i: nat)
    requires i < |records|
    ensures IsLast(records, i) <==> Rank(records, records[i].identity, i) == |Group(records, records[i].identity)| - 1
  {
    hide Group, Rank;
    var id := records[i].identity;
    AtRank(records, i);
    if IsLast(records, i) { LastHasHighestRank(records, i); }
    if !IsLast(records, i) {
      var k :| i < k < |records| && records[k].identity == id;
      AtRank(records, k);
      RankGrows(records, i, k);
    }
  }

  lemma RankGrows(records: seq<Record>, i: nat, k: nat)
    requires i < k < |records|
    ensures Rank(records, records[i].identity, i) < Rank(records, records[i].identity, k)
  {
    var id := records[i].identity;
    RankStep(records, id, i);
    PrefixOfGroup(records[..k], id, i + 1);
    assert records[..k][..i + 1] == records[..i + 1];
  }

  /** Components are listed in the order in which they first contribute. */
  lemma {:induction false} ComponentsInOrder(group: seq<Record>, k: nat)
    requires k <= |group|
    ensures Components(group[..k]) <= Components(group)
    decreases |group| - k
  {
    if k == |group| {
      assert group[..k] == group;
    } else {
      assert group[..k + 1] == group[..k] + [group[k]];
      ComponentsGrow(group[..k], group[k]);
      ComponentsInOrder(group, k + 1);
    }
  }

  /** One control for each setting, in the order of the settings, and nothing else. */
  lemma {:induction false} OneControlEach(records: seq<Record>, names: seq<string>, k: nat)
    requires k < |names| && forall id | id in names :: Group(records, id) != []
    ensures |ControlsFor(records, names)| == |names| && ControlsFor(records, names)[k] == ControlOf(Group(records, names[k]))
    decreases |names|
  {
    hide Group, ControlOf;
    if k > 0 { OneControlEach(records, names[1..], k - 1); }
    else if |names| > 1 { OneControlEach(records, names[1..], 0); }
  }
}
