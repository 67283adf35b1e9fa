/**
 How the baseline importer folds the records of several components into one
 control for each setting: the last record wins, and every earlier one stays,
 labelled by what its successor made of it.
 */
module NormalizeControls {
  import opened Wrappers
  import opened ManagementJsonText

  /** What two records must agree on to be equivalent. */
  datatype Payload = Payload(comparison: string, valueType: string, expected: string)

  /** `identity` stands for the folded kind, scope, path and name, and its order for theirs. */
  datatype Record = Record(identity: string, payload: Payload, componentId: string, sourcePath: string)

  datatype Resolution = Effective | Equivalent | Overridden

  datatype Provenance = Provenance(record: Record, resolution: Resolution)

  datatype Control = Control(identity: string, payload: Payload, components: seq<string>, sources: seq<Provenance>)

  // ----- What the controls should be -----

  /** The records of one setting, in order. */
  function Group(records: seq<Record>, identity: string): seq<Record> {
    if records == [] then []
    else
      var last := records[|records| - 1];
      var front := Group(records[..|records| - 1], identity);
      if last.identity == identity then front + [last] else front
  }

  function Labelled(group: seq<Record>): seq<Provenance> {
    seq(|group|, i requires 0 <= i < |group| =>
      Provenance(group[i], if i == |group| - 1 then Effective
                           else if group[i].payload == group[i + 1].payload then Equivalent else Overridden))
  }

  /** The components, each once, in the order in which they first appear. */
  function Components(group: seq<Record>): seq<string> {
    if group == [] then []
    else
      var front := Components(group[..|group| - 1]);
      var last := group[|group| - 1].componentId;
      if last in front then front else front + [last]
  }

  function ControlOf(group: seq<Record>): Control
    requires group != []
  {
    var last := group[|group| - 1];
    Control(last.identity, last.payload, Components(group), Labelled(group))
  }

  /** Two extensions of one component disagree, and nothing says which goes first. */
  predicate Clash(earlier: Record, later: Record) {
    earlier.payload != later.payload && earlier.componentId == later.componentId && earlier.sourcePath != later.sourcePath
  }

  predicate Clashes(records: seq<Record>) {
    records != []
    && var n := |records| - 1;
       var previous := Group(records[..n], records[n].identity);
       Clashes(records[..n]) || (previous != [] && Clash(previous[|previous| - 1], records[n]))
  }

  function Identities(records: seq<Record>): set<string> { set r | r in records :: r.identity }

  function ControlsFor(records: seq<Record>, identities: seq<string>): seq<Control>
    requires forall id | id in identities :: Group(records, id) != []
  {
    if identities == [] then [] else [ControlOf(Group(records, identities[0]))] + ControlsFor(records, identities[1..])
  }

  // ----- Facts -----

  lemma {:induction false} GroupIsFilter(records: seq<Record>, identity: string)
    ensures forall r :: r in Group(records, identity) <==> r in records && r.identity == identity
    ensures Group(records, identity) != [] <==> identity in Identities(records)
  {
    if records != [] {
      var n := |records| - 1;
      GroupIsFilter(records[..n], identity);
      assert records == records[..n] + [records[n]];
    }
    if Group(records, identity) != [] {
      assert Group(records, identity)[0] in records;
    }
  }

  lemma GroupGrows(front: seq<Record>, r: Record, identity: string)
    ensures Group(front + [r], identity) == if r.identity == identity then Group(front, identity) + [r] else Group(front, identity)
  {
    assert (front + [r])[..|front|] == front;
  }

  lemma ComponentsGrow(group: seq<Record>, r: Record)
    ensures Components(group + [r]) == if r.componentId in Components(group) then Components(group) else Components(group) + [r.componentId]
  {
    assert (group + [r])[..|group|] == group;
  }

  lemma ControlSources(group: seq<Record>)
    requires group != []
    ensures ControlOf(group).sources == Labelled(group) && |ControlOf(group).sources| == |group|
    ensures ControlOf(group).payload == group[|group| - 1].payload
  {
    hide Components;
  }

  lemma LabelAt(group: seq<Record>, i: nat)
    requires i < |group|
    ensures var source := Labelled(group)[i];
            && source.record == group[i]
            && (source.resolution.Effective? <==> i == |group| - 1)
            && (i + 1 < |group| ==> (source.resolution.Equivalent? <==> group[i].payload == group[i + 1].payload))
  {
  }

  /** The labels say how each record compares with the next one. */
  lemma LabelsCompareSuccessors(group: seq<Record>)
    requires group != []
    ensures var sources := ControlOf(group).sources;
            && |sources| == |group|
            && forall i | 0 <= i < |group| ::
                 && sources[i].record == group[i]
                 && (sources[i].resolution.Effective? <==> i == |group| - 1)
                 && (i + 1 < |group| ==> (sources[i].resolution.Equivalent? <==> group[i].payload == group[i + 1].payload))
  {
    hide ControlOf, Labelled;
    ControlSources(group);
    var sources := ControlOf(group).sources;
    forall i | 0 <= i < |group|
      ensures sources[i].record == group[i]
      ensures sources[i].resolution.Effective? <==> i == |group| - 1
      ensures i + 1 < |group| ==> (sources[i].resolution.Equivalent? <==> group[i].payload == group[i + 1].payload)
    {
      LabelAt(group, i);
    }
  }

  /**
   The labels trace the value of a control: all records from `i` on carry it exactly when all of them before the effective
   one are labelled equivalent, and the record before such a tail carries it exactly when it is labelled equivalent too.
   */
  lemma {:induction false} EquivalentTailAgrees(group: seq<Record>, i: nat)
    requires i < |group|
    ensures var control := ControlOf(group); var sources := control.sources;
            && |sources| == |group|
            && ((forall k | i <= k < |group| - 1 :: sources[k].resolution.Equivalent?) <==>
                (forall k | i <= k < |group| :: sources[k].record.payload == control.payload))
            && (i > 0 && (forall k | i <= k < |group| - 1 :: sources[k].resolution.Equivalent?) ==>
                  (sources[i - 1].resolution.Overridden? <==> sources[i - 1].record.payload != control.payload))
    decreases |group| - i
  {
    hide ControlOf, Labelled;
    ControlSources(group);
    LabelsCompareSuccessors(group);
    if i < |group| - 1 { EquivalentTailAgrees(group, i + 1); }
  }

  predicate HasComponent(group: seq<Record>, c: string) { exists k :: 0 <= k < |group| && group[k].componentId == c }

  lemma HasComponentGrows(front: seq<Record>, last: Record, c: string)
    ensures HasComponent(front + [last], c) <==> HasComponent(front, c) || last.componentId == c
  {
    var group := front + [last];
    assert group[|front|] == last;
    if k :| 0 <= k < |front| && front[k].componentId == c { assert group[k].componentId == c; }
    if k :| 0 <= k < |group| && group[k].componentId == c { if k < |front| { assert front[k].componentId == c; } }
  }

  lemma {:induction false} ComponentsAreDistinct(group: seq<Record>)
    ensures forall i, j | 0 <= i < j < |Components(group)| :: Components(group)[i] != Components(group)[j]
    ensures forall c :: c in Components(group) <==> HasComponent(group, c)
  {
    if group != [] {
      var n := |group| - 1;
      var front, last := group[..n], group[n];
      ComponentsAreDistinct(front);
      assert group == front + [last];
      forall c ensures HasComponent(group, c) <==> HasComponent(front, c) || last.componentId == c {
        HasComponentGrows(front, last, c);
      }
    }
  }

  predicate ClashAt(group: seq<Record>, i: nat) { i + 1 < |group| && Clash(group[i], group[i + 1]) }

  lemma ClashAtGrows(group: seq<Record>, last: Record, i: nat)
    ensures ClashAt(group + [last], i) <==> ClashAt(group, i) || (i + 1 == |group| && Clash(group[i], last))
  {
  }

  ghost predicate NeighboursClash(records: seq<Record>) {
    exists id, i: nat :: ClashAt(Group(records, id), i)
  }

  lemma Neighbours(records: seq<Record>, id: string, i: nat)
    requires ClashAt(Group(records, id), i)
    ensures NeighboursClash(records)
  {
  }

  lemma NeighboursGrow(front: seq<Record>, last: Record)
    ensures NeighboursClash(front + [last]) <==>
            var previous := Group(front, last.identity);
            NeighboursClash(front) || (previous != [] && Clash(previous[|previous| - 1], last))
  {
    hide Clash, ClashAt;
    var records, previous := front + [last], Group(front, last.identity);
    GroupGrows(front, last, last.identity);
    if previous != [] {
      ClashAtGrows(previous, last, |previous| - 1);
      if Clash(previous[|previous| - 1], last) { Neighbours(records, last.identity, |previous| - 1); }
    }
    if NeighboursClash(front) {
      var id, i: nat :| ClashAt(Group(front, id), i);
      GroupGrows(front, last, id);
      ClashAtGrows(Group(front, id), last, i);
      Neighbours(records, id, i);
    }
    if NeighboursClash(records) {
      var id, i: nat :| ClashAt(Group(records, id), i);
      GroupGrows(front, last, id);
      ClashAtGrows(Group(front, id), last, i);
      if ClashAt(Group(front, id), i) { Neighbours(front, id, i); }
    }
  }

  /** Clashing is a matter of neighbours within one group. */
  lemma {:induction false} ClashesAreBetweenNeighbours(records: seq<Record>)
    ensures Clashes(records) <==> NeighboursClash(records)
  {
    hide Clash, NeighboursClash;
    if records == [] {
      NoneClash();
    } else {
      var n := |records| - 1;
      ClashesAreBetweenNeighbours(records[..n]);
      NeighboursGrow(records[..n], records[n]);
      assert records == records[..n] + [records[n]];
    }
  }

  lemma NoneClash()
    ensures !NeighboursClash([])
  {
  }

  // ----- Every record is accounted for -----

  function CountIn(records: seq<Record>, identities: set<string>): nat {
    if records == [] then 0
    else CountIn(records[..|records| - 1], identities) + if records[|records| - 1].identity in identities then 1 else 0
  }

  lemma {:induction false} CountOfOne(records: seq<Record>, identities: set<string>, id: string)
    requires id in identities
    ensures CountIn(records, identities) == |Group(records, id)| + CountIn(records, identities - {id})
  {
    if records != [] { CountOfOne(records[..|records| - 1], identities, id); }
  }

  lemma {:induction false} CountOfAll(records: seq<Record>, identities: set<string>)
    requires forall r | r in records :: r.identity in identities
    ensures CountIn(records, identities) == |records|
  {
    if records != [] { CountOfAll(records[..|records| - 1], identities); }
  }

  lemma {:induction false} CountOfNone(records: seq<Record>)
    ensures CountIn(records, {}) == 0
  {
    if records != [] { CountOfNone(records[..|records| - 1]); }
  }

  function Total(controls: seq<Control>): nat {
    if controls == [] then 0 else |controls[0].sources| + Total(controls[1..])
  }

  lemma {:induction false} TotalOfSorted(records: seq<Record>, identities: set<string>)
    requires forall id | id in identities :: Group(records, id) != []
    ensures Total(ControlsFor(records, Sorted(identities))) == CountIn(records, identities)
    decreases identities
  {
    hide Group, First, Components;
    if identities == {} {
      CountOfNone(records);
    } else {
      var id := First(identities);
      TotalOfSorted(records, identities - {id});
      CountOfOne(records, identities, id);
      assert Sorted(identities)[1..] == Sorted(identities - {id});
      var all := ControlsFor(records, Sorted(identities));
      assert all[1..] == ControlsFor(records, Sorted(identities - {id}));
      ControlSources(Group(records, id));
    }
  }

  /** Main result: the total over all controls is the number of records, so the importer's own accounting check never fires. */
  lemma EveryRecordIsAccountedFor(records: seq<Record>)
    ensures forall id | id in Identities(records) :: Group(records, id) != []
    ensures Total(ControlsFor(records, Sorted(Identities(records)))) == |records|
  {
    hide Group, Sorted, ControlsFor, Total;
    forall id | id in Identities(records) ensures Group(records, id) != [] { GroupIsFilter(records, id); }
    TotalOfSorted(records, Identities(records));
    CountOfAll(records, Identities(records));
  }

  // ----- The importer's loop -----

  /** Relabels what was effective, as the source does in place. */
  method Relabel(sources: seq<Provenance>, mark: Resolution) returns (r: seq<Provenance>)
    ensures |r| == |sources|
    ensures forall i | 0 <= i < |sources| ::
              r[i] == if sources[i].resolution.Effective? then sources[i].(resolution := mark) else sources[i]
  {
    r := sources;
    for i := 0 to |sources|
      invariant |r| == |sources|
      invariant forall k | 0 <= k < |sources| ::
                  r[k] == if k < i && sources[k].resolution.Effective? then sources[k].(resolution := mark) else sources[k]
    {
      if r[i].resolution.Effective? { r := r[i := r[i].(resolution := mark)]; }
    }
  }

  lemma RelabelledIsLabelled(group: seq<Record>, next: Record, relabelled: seq<Provenance>)
    requires group != [] && |relabelled| == |group|
    requires var mark := if group[|group| - 1].payload == next.payload then Equivalent else Overridden;
             forall i | 0 <= i < |group| ::
               relabelled[i] == if Labelled(group)[i].resolution.Effective? then Labelled(group)[i].(resolution := mark) else Labelled(group)[i]
    ensures relabelled + [Provenance(next, Effective)] == Labelled(group + [next])
  {
  }

  /** One record on top of the control that its setting has so far. */
  method Extend(previous: Control, record: Record, ghost group: seq<Record>) returns (r: Option<Control>)
    requires group != [] && previous == ControlOf(group) && record.identity == previous.identity
    ensures r == if Clash(group[|group| - 1], record) then None else Some(ControlOf(group + [record]))
  {
    var latest := previous.sources[|previous.sources| - 1].record;
    var equivalent := previous.payload == record.payload;
    if !equivalent && latest.componentId == record.componentId && latest.sourcePath != record.sourcePath { return None; }
    var relabelled := Relabel(previous.sources, if equivalent then Equivalent else Overridden);
    RelabelledIsLabelled(group, record, relabelled);
    ComponentsGrow(group, record);
    var components := if record.componentId in previous.components then previous.components
                      else previous.components + [record.componentId];
    r := Some(Control(record.identity, record.payload, components, relabelled + [Provenance(record, Effective)]));
  }

  /** What the dictionary holds after some records. */
  ghost predicate Holds(result: map<string, Control>, records: seq<Record>) {
    && (forall id :: id in result <==> Group(records, id) != [])
    && (forall id | id in result :: result[id] == ControlOf(Group(records, id)) && result[id].identity == id)
  }

  method Fold(records: seq<Record>) returns (r: Option<map<string, Control>>)
    ensures r.None? <==> Clashes(records)
    ensures r.Some? ==> Holds(r.value, records)
  {
    hide ControlOf, Clash, Group;
    var result: map<string, Control> := map[];
    assert records[..0] == [];
    HoldsNothing();
    for i := 0 to |records|
      invariant Holds(result, records[..i]) && !Clashes(records[..i])
    {
      var record := records[i];
      ghost var front := records[..i];
      assert records[..i + 1] == front + [record] && records[..i + 1][..i] == front;
      ghost var group := Group(front, record.identity);
      var control: Control;
      if record.identity in result {
        var extended := Extend(result[record.identity], record, group);
        if extended.None? {
          ClashStays(records, i + 1);
          return None;
        }
        control := extended.value;
      } else {
        control := Control(record.identity, record.payload, [record.componentId], [Provenance(record, Effective)]);
        assert group + [record] == [record];
        FirstControl(record);
      }
      HoldsNext(result, front, record, control);
      result := result[record.identity := control];
    }
    assert records[..|records|] == records;
    r := Some(result);
  }

  lemma HoldsNothing()
    ensures Holds(map[], []) && !Clashes([])
  {
  }

  lemma FirstControl(record: Record)
    ensures ControlOf([record]) == Control(record.identity, record.payload, [record.componentId], [Provenance(record, Effective)])
  {
    assert [record][..0] == [];
    assert Components([record]) == [record.componentId];
  }

  lemma {:induction false} ClashStays(records: seq<Record>, k: nat)
    requires k <= |records| && Clashes(records[..k])
    ensures Clashes(records)
    decreases |records| - k
  {
    hide Clash, Group;
    if k == |records| {
      assert records[..k] == records;
    } else {
      assert records[..k + 1][..k] == records[..k];
      ClashStays(records, k + 1);
    }
  }

  lemma HoldsNext(result: map<string, Control>, front: seq<Record>, record: Record, control: Control)
    requires Holds(result, front)
    requires control == ControlOf(Group(front, record.identity) + [record])
    ensures Holds(result[record.identity := control], front + [record])
  {
    hide Components, Labelled, Group;
    forall id ensures Group(front + [record], id) == if record.identity == id then Group(front, id) + [record] else Group(front, id) {
      GroupGrows(front, record, id);
    }
  }

  /** The controls in order of identity; `digest` gives a control its identifier, and two with the same one are refused. */
  method Normalize(records: seq<Record>, digest: string -> string) returns (r: Option<seq<Control>>)
    ensures var ids := Identities(records);
            r.Some? <==> !Clashes(records) && Distinguishes(digest, ids)
    ensures r.Some? ==> (forall id | id in Identities(records) :: Group(records, id) != [])
                        && r.value == ControlsFor(records, Sorted(Identities(records))) && Total(r.value) == |records|
  {
    hide ControlOf, Group, Clashes, Total, Holds, Sorted, Identities, ControlsFor;
    var folded := Fold(records);
    if folded.None? { return None; }
    HeldIdentities(folded.value, records);
    EveryRecordIsAccountedFor(records);
    var names := Sorted(folded.value.Keys);
    var distinct := AllDistinct(names, digest);
    SortedNames(folded.value.Keys, digest);
    if !distinct { return None; }
    var controls := Collect(folded.value, names, records);
    r := Some(controls);
  }

  predicate Distinguishes(digest: string -> string, ids: set<string>) {
    forall a, b | a in ids && b in ids && a != b :: digest(a) != digest(b)
  }

  /** Whether no two of the names get the same identifier. */
  method AllDistinct(names: seq<string>, digest: string -> string) returns (ok: bool)
    ensures ok <==> Differ(digest, names)
  {
    var identifiers: set<string> := {};
    for i := 0 to |names|
      invariant forall a, b | 0 <= a < b < i :: digest(names[a]) != digest(names[b])
      invariant forall x :: x in identifiers <==> exists k :: 0 <= k < i && digest(names[k]) == x
    {
      if digest(names[i]) in identifiers { return false; }
      identifiers := identifiers + {digest(names[i])};
    }
    ok := true;
  }

  method Collect(result: map<string, Control>, names: seq<string>, ghost records: seq<Record>) returns (controls: seq<Control>)
    requires forall id | id in names :: id in result && Group(records, id) != [] && result[id] == ControlOf(Group(records, id))
    ensures controls == ControlsFor(records, names)
  {
    hide ControlOf, Group;
    controls := [];
    assert names[0..] == names;
    for i := 0 to |names|
      invariant controls + ControlsFor(records, names[i..]) == ControlsFor(records, names)
    {
      assert names[i] in result && names[i..][1..] == names[i + 1..];
      controls := controls + [result[names[i]]];
    }
    assert names[|names|..] == [];
  }

  predicate Differ(digest: string -> string, names: seq<string>) {
    forall a, b | 0 <= a < b < |names| :: digest(names[a]) != digest(names[b])
  }

  lemma SortedNames(ids: set<string>, digest: string -> string)
    ensures Distinguishes(digest, ids) <==> Differ(digest, Sorted(ids))
  {
    SortedAreDistinct(ids);
    hide Sorted;
    var names := Sorted(ids);
    if Differ(digest, names) {
      forall a, b | a in ids && b in ids && a != b ensures digest(a) != digest(b) {
        var i :| 0 <= i < |names| && names[i] == a;
        var j :| 0 <= j < |names| && names[j] == b;
        assert i < j || j < i;
      }
    }
  }

  lemma SortedAreDistinct(ids: set<string>)
    ensures forall a, b | 0 <= a < b < |Sorted(ids)| :: Sorted(ids)[a] != Sorted(ids)[b]
  {
    forall a, b | 0 <= a < b < |Sorted(ids)| ensures Sorted(ids)[a] != Sorted(ids)[b] {
      SortedIsDistinct(ids, a, b);
    }
  }

  lemma HeldIdentities(result: map<string, Control>, records: seq<Record>)
    requires Holds(result, records)
    ensures result.Keys == Identities(records)
    ensures forall id | id in result :: Group(records, id) != [] && result[id] == ControlOf(Group(records, id))
  {
    hide Group, ControlOf;
    forall id ensures id in result <==> id in Identities(records) { GroupIsFilter(records, id); }
  }

  lemma {:induction false} SortedIsDistinct(names: set<string>, a: nat, b: nat)
    requires a < b < |Sorted(names)|
    ensures Sorted(names)[a] != Sorted(names)[b]
    decreases names
  {
    var first := First(names);
    if a > 0 {
      SortedIsDistinct(names - {first}, a - 1, b - 1);
    } else {
      assert Sorted(names)[b] == Sorted(names - {first})[b - 1];
    }
  }
}
