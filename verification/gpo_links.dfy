/**
 How the native provider places and removes a GPO's links, target by target,
 with no setter for a link's position: a link that must move is deleted and
 created again. The link collection of a target is taken to behave as a
 numbered list: deleting closes the gap, creating at a position makes room.
 */
module GpoLinks {
  import opened Wrappers
  import opened GpoRecord
  import opened GpoPostconditions
  import GpoManaged

  const MAXIMUM_LINKS := 128

  predicate Numbered(ls: seq<Link>) { forall i | 0 <= i < |ls| :: ls[i].order == i + 1 }

  predicate AtMostOne(ls: seq<Link>, id: string) {
    forall a, b | 0 <= a < b < |ls| :: ls[a].guid != id || ls[b].guid != id
  }

  predicate HasOwn(ls: seq<Link>, id: string) { exists i :: 0 <= i < |ls| && ls[i].guid == id }

  /** The other GPOs' links with this link inserted at a position, counted from one. */
  function Placed(ls: seq<Link>, own: Link, position: int): seq<Link>
    requires 1 <= position <= |Others(ls, own.guid)| + 1
  {
    var others := Others(ls, own.guid);
    Renumbered(others[..position - 1] + [own] + others[position - 1..])
  }

  function Cut(ls: seq<Link>, k: nat): seq<Link>
    requires k < |ls|
  {
    ls[..k] + ls[k + 1..]
  }

  // ----- Facts about lists -----

  lemma {:induction false} OthersConcat(a: seq<Link>, b: seq<Link>, id: string)
    ensures Others(a + b, id) == Others(a, id) + Others(b, id)
    decreases |a|
  {
    if a == [] {
      assert a + b == b;
    } else {
      assert (a + b)[0] == a[0] && (a + b)[1..] == a[1..] + b;
      OthersConcat(a[1..], b, id);
    }
  }

  lemma OthersWithout(ls: seq<Link>, id: string, k: nat)
    requires k < |ls| && ls[k].guid == id && AtMostOne(ls, id)
    ensures Others(ls, id) == Cut(ls, k)
  {
    var a, b := ls[..k], ls[k + 1..];
    assert ls == a + ([ls[k]] + b);
    OthersConcat(a, [ls[k]] + b, id);
    assert ([ls[k]] + b)[1..] == b;
    OthersOfOthers(a, id);
    OthersOfOthers(b, id);
  }

  lemma OthersOfNone(ls: seq<Link>, id: string)
    requires !HasOwn(ls, id)
    ensures Others(ls, id) == ls
  {
    forall i | 0 <= i < |ls| ensures ls[i].guid != id {
      assert HasOwn(ls, id) || ls[i].guid != id;
    }
    OthersOfOthers(ls, id);
  }

  lemma {:induction false} OthersRenumber(a: seq<Link>, b: seq<Link>, id: string)
    requires |a| == |b| && forall i | 0 <= i < |a| :: WithoutOrder(a[i]) == WithoutOrder(b[i])
    ensures Unrelated(a, id) == Unrelated(b, id)
  {
    if a != [] {
      OthersRenumber(a[1..], b[1..], id);
      assert a[0].guid == WithoutOrder(a[0]).guid == b[0].guid;
      UnrelatedFirst(a, id);
      UnrelatedFirst(b, id);
    }
  }

  lemma UnrelatedFirst(ls: seq<Link>, id: string)
    requires ls != []
    ensures Unrelated(ls, id) == (if ls[0].guid == id then [] else [WithoutOrder(ls[0])]) + Unrelated(ls[1..], id)
  {
  }

  lemma OthersBefore(a: seq<Link>, own: Link)
    requires forall i | 0 <= i < |a| :: a[i].guid != own.guid
    ensures Others(a + [own], own.guid) == a
  {
    hide Others;
    OthersConcat(a, [own], own.guid);
    OthersOfOthers(a, own.guid);
    OthersOfOne(own);
  }

  lemma OthersAround(a: seq<Link>, own: Link, b: seq<Link>)
    requires forall i | 0 <= i < |a| :: a[i].guid != own.guid
    requires forall i | 0 <= i < |b| :: b[i].guid != own.guid
    ensures Others(a + [own] + b, own.guid) == a + b
  {
    hide Others;
    OthersBefore(a, own);
    OthersOfOthers(b, own.guid);
    var front := a + [own];
    OthersConcat(front, b, own.guid);
  }

  lemma OthersOfOne(own: Link)
    ensures Others([own], own.guid) == []
  {
    assert [own][1..] == [];
  }

  lemma SameUnrelated(a: seq<Link>, b: seq<Link>, id: string)
    requires Others(a, id) == Others(b, id)
    ensures Unrelated(a, id) == Unrelated(b, id)
  {
    hide Others;
  }

  /** Placing a link leaves the others as they were. */
  lemma PlacedKeepsOthers(ls: seq<Link>, own: Link, position: int)
    requires 1 <= position <= |Others(ls, own.guid)| + 1
    ensures KeepsOthers(ls, Placed(ls, own, position), own.guid)
  {
    hide Others, Unrelated;
    var others := Others(ls, own.guid);
    var a, b := others[..position - 1], others[position - 1..];
    OthersHaveOthers(ls, own.guid);
    OthersAround(a, own, b);
    assert a + b == others;
    SameUnrelated(ls, a + [own] + b, own.guid);
    OthersRenumber(a + [own] + b, Placed(ls, own, position), own.guid);
  }

  /** The placed link is found, at the position that was asked for, with its own flags. */
  lemma PlacedIsFound(ls: seq<Link>, own: Link, position: int)
    requires 1 <= position <= |Others(ls, own.guid)| + 1
    ensures FindByGuid(Placed(ls, own, position), own.guid) == Some(own.(order := position))
    ensures Numbered(Placed(ls, own, position)) && AtMostOne(Placed(ls, own, position), own.guid)
  {
    OthersHaveOthers(ls, own.guid);
    FoundAt(Placed(ls, own, position), own.guid, position - 1);
  }

  lemma {:induction false} FoundAt(ls: seq<Link>, id: string, k: nat)
    requires k < |ls| && ls[k].guid == id && forall i | 0 <= i < k :: ls[i].guid != id
    ensures FindByGuid(ls, id) == Some(ls[k])
  {
    if k > 0 { FoundAt(ls[1..], id, k - 1); }
  }

  // ----- One target -----

  class Target {
    const dn: string
    const kind: Kind
    var links: seq<Link>

    constructor (dn: string, kind: Kind, links: seq<Link>)
      ensures this.dn == dn && this.kind == kind && this.links == links
    {
      this.dn, this.kind, this.links := dn, kind, links;
    }

    method Delete(k: nat)
      requires k < |links|
      modifies this
      ensures links == Renumbered(Cut(old(links), k))
    {
      links := Renumbered(Cut(links, k));
    }

    /** The flags of a new link are whatever the service chooses. */
    method Create(position: int, id: string, domain: string) returns (k: nat)
      requires 1 <= position <= |links| + 1
      modifies this
      ensures k == position - 1 && |links| == |old(links)| + 1
      ensures links == Renumbered(old(links)[..k] + [Link(id, domain, dn, kind, links[k].enabled, links[k].enforced, 0)] + old(links)[k..])
    {
      var enabled, enforced := *, *;
      k := position - 1;
      links := Renumbered(links[..k] + [Link(id, domain, dn, kind, enabled, enforced, 0)] + links[k..]);
    }

    method PutEnabled(k: nat, value: bool)
      requires k < |links|
      modifies this
      ensures links == old(links)[k := old(links)[k].(enabled := value)]
    {
      links := links[k := links[k].(enabled := value)];
    }

    method PutEnforced(k: nat, value: bool)
      requires k < |links|
      modifies this
      ensures links == old(links)[k := old(links)[k].(enforced := value)]
    {
      links := links[k := links[k].(enforced := value)];
    }

    /** Finds the one link of a GPO; two are a conflict. */
    method FindOwn(id: string) returns (conflict: bool, own: Option<nat>)
      ensures conflict <==> !AtMostOne(links, id)
      ensures !conflict ==> (own.Some? <==> HasOwn(links, id))
      ensures !conflict && own.Some? ==> own.value < |links| && links[own.value].guid == id
    {
      own := None;
      for i := 0 to |links|
        invariant match own
                  case None => forall j | 0 <= j < i :: links[j].guid != id
                  case Some(k) => k < i && links[k].guid == id && forall j | 0 <= j < i :: links[j].guid == id ==> j == k
      {
        if links[i].guid == id {
          if own.Some? { return true, None; }
          own := Some(i);
        }
      }
      conflict := false;
    }
  }

  datatype Problem = TargetInvalid | StateChanged | LinkConflict | RequiresDisabled

  /** Why a target is refused before anything is written to it. */
  function Refusal(ls: seq<Link>, expected: seq<Link>, id: string): Option<Problem> {
    if |ls| > MAXIMUM_LINKS then Some(TargetInvalid)
    else if ls != expected then Some(StateChanged)
    else if !AtMostOne(ls, id) then Some(LinkConflict)
    else if exists i :: 0 <= i < |ls| && ls[i].guid == id && ls[i].enforced then Some(LinkConflict)
    else None
  }

  /** A target is written to only while it is as it was approved; one whose links differ in anything is refused. */
  lemma RefusalIsDecided(ls: seq<Link>, expected: seq<Link>, id: string)
    ensures Refusal(ls, expected, id).None? <==>
              |ls| <= MAXIMUM_LINKS && ls == expected && AtMostOne(ls, id) && forall i | 0 <= i < |ls| && ls[i].guid == id :: !ls[i].enforced
    ensures |ls| > MAXIMUM_LINKS ==> Refusal(ls, expected, id) == Some(TargetInvalid)
    ensures |ls| <= MAXIMUM_LINKS && ls != expected ==> Refusal(ls, expected, id) == Some(StateChanged)
    ensures |ls| <= MAXIMUM_LINKS && ls == expected && !AtMostOne(ls, id) ==> Refusal(ls, expected, id) == Some(LinkConflict)
  {
    hide AtMostOne;
  }

  predicate PositionExists(ls: seq<Link>, id: string, position: int) { 1 <= position <= |Others(ls, id)| + 1 }

  function PlacingRefusal(ls: seq<Link>, expected: seq<Link>, id: string, position: int): Option<Problem> {
    match Refusal(ls, expected, id)
    case Some(p) => Some(p)
    case None => if PositionExists(ls, id, position) then None else Some(LinkConflict)
  }

  /** A full list takes one more link before its length is checked again. */
  predicate Overfull(ls: seq<Link>, id: string) { |ls| == MAXIMUM_LINKS && !HasOwn(ls, id) }

  predicate OwnFits(t: Target, id: string, domain: string)
    reads t
  {
    Numbered(t.links) && forall i | 0 <= i < |t.links| && t.links[i].guid == id ::
      t.links[i].dn == t.dn && t.links[i].kind == t.kind && t.links[i].domain == domain
  }

  lemma Repositioned(ls: seq<Link>, own: Link, k: nat)
    requires k < |ls| && ls[k].guid == own.guid && AtMostOne(ls, own.guid) && Numbered(ls)
    ensures PositionExists(ls, own.guid, k + 1) && Placed(ls, own, k + 1) == ls[k := own.(order := k + 1)]
  {
    OthersWithout(ls, own.guid, k);
    assert Cut(ls, k)[..k] == ls[..k] && Cut(ls, k)[k..] == ls[k + 1..];
  }

  /** Creating in the renumbered rest is placing in the original. */
  lemma CreatedIsPlaced(ls: seq<Link>, rest: seq<Link>, own: Link, position: int)
    requires PositionExists(ls, own.guid, position)
    requires rest == Others(ls, own.guid) || rest == Renumbered(Others(ls, own.guid))
    ensures Renumbered(rest[..position - 1] + [own] + rest[position - 1..]) == Placed(ls, own, position)
  {
  }

  lemma LengthsFit(ls: seq<Link>, rest: seq<Link>, own: Link, position: int)
    requires PositionExists(ls, own.guid, position)
    requires rest == Others(ls, own.guid) || rest == Renumbered(Others(ls, own.guid))
    ensures 1 <= position <= |rest| + 1 && 1 <= position <= |Others(ls, own.guid)| + 1
  {
  }

  /** Setting the flags of the created link gives the placed list, whatever flags it was created with. */
  lemma FlagsAfterCreation(ls: seq<Link>, rest: seq<Link>, made: Link, position: int, enable: bool)
    requires PositionExists(ls, made.guid, position) && made.order == 0
    requires rest == Others(ls, made.guid) || rest == Renumbered(Others(ls, made.guid))
    ensures var k := position - 1; var own := made.(enabled := enable, enforced := false);
            var created := Renumbered(rest[..k] + [made] + rest[k..]);
            && k < |created|
            && var enabled := created[k := created[k].(enabled := enable)];
            && enabled[k := enabled[k].(enforced := false)] == Placed(ls, own, position)
            && Placed(ls, own, position)[k] == own.(order := position)
  {
    hide Others;
    CreatedIsPlaced(ls, rest, made.(enabled := enable, enforced := false), position);
  }

  /** Creates the link in the renumbered or untouched rest, sets its flags, and checks what came of it. */
  method CreateLink(t: Target, id: string, domain: string, position: int, enable: bool, ghost before: seq<Link>, compared: seq<Link>)
    returns (r: Option<Problem>)
    requires PositionExists(before, id, position) && compared == Unrelated(before, id)
    requires t.links == Others(before, id) || t.links == Renumbered(Others(before, id))
    modifies t
    ensures t.links == Placed(before, Link(id, domain, t.dn, t.kind, enable, false, 0), position)
    ensures r == if |t.links| > MAXIMUM_LINKS then Some(TargetInvalid) else None
  {
    ghost var own := Link(id, domain, t.dn, t.kind, enable, false, 0);
    ghost var rest := t.links;
    hide Placed, Unrelated, Others, Renumbered, PositionExists;
    LengthsFit(before, rest, own, position);
    var k := t.Create(position, id, domain);
    FlagsAfterCreation(before, rest, Link(id, domain, t.dn, t.kind, t.links[k].enabled, t.links[k].enforced, 0), position, enable);
    t.PutEnabled(k, enable);
    t.PutEnforced(k, false);
    assert t.links == Placed(before, own, position);
    if |t.links| > MAXIMUM_LINKS { return Some(TargetInvalid); }
    PlacedKeepsOthers(before, own, position);
    // The two checks of the source that follow a write: neither can fire.
    if Unrelated(t.links, id) != compared { assert false; }
    if t.links[k].order != position || t.links[k].enabled != enable || t.links[k].enforced { assert false; }
    r := None;
  }

  /** One pass of the loop over targets: a link already in place is toggled, any other is replaced. */
  method PlaceLink(t: Target, id: string, domain: string, expected: seq<Link>, position: int, enable: bool) returns (r: Option<Problem>)
    requires OwnFits(t, id, domain)
    modifies t
    ensures var refusal := PlacingRefusal(old(t.links), expected, id, position);
            if refusal.Some? then r == refusal && t.links == old(t.links)
            else
              && PositionExists(old(t.links), id, position)
              && t.links == Placed(old(t.links), Link(id, domain, t.dn, t.kind, enable, false, 0), position)
              && r == if Overfull(old(t.links), id) then Some(TargetInvalid) else None
    ensures old(t.links) != expected ==> r.Some? && t.links == old(t.links)
  {
    hide Placed, Unrelated, Others, Renumbered, AtMostOne;
    if |t.links| > MAXIMUM_LINKS { return Some(TargetInvalid); }
    if t.links != expected { return Some(StateChanged); }
    ghost var before := t.links;
    var compared := Unrelated(t.links, id);
    var conflict, found := t.FindOwn(id);
    if conflict { return Some(LinkConflict); }
    RestLength(before, id);
    var remaining := |t.links| - if found.Some? then 1 else 0;
    if position < 1 || position > remaining + 1 {
      return Some(LinkConflict);
    }
    if found.Some? {
      var k := found.value;
      UniqueOwn(before, id, k);
      if t.links[k].enforced { return Some(LinkConflict); }
      if t.links[k].enabled { t.PutEnabled(k, false); }
      if t.links[k].order == position {
        Repositioned(before, Link(id, domain, t.dn, t.kind, enable, false, 0), k);
        if enable { t.PutEnabled(k, true); }
        PlacedLength(before, Link(id, domain, t.dn, t.kind, enable, false, 0), position);
        return None;
      }
      DeletedIsRest(before, t.links, id, k);
      t.Delete(k);
    } else {
      OthersOfNone(before, id);
    }
    r := CreateLink(t, id, domain, position, enable, before, compared);
    PlacedLength(before, Link(id, domain, t.dn, t.kind, enable, false, 0), position);
  }

  lemma RestLength(ls: seq<Link>, id: string)
    requires AtMostOne(ls, id)
    ensures |Others(ls, id)| == |ls| - if HasOwn(ls, id) then 1 else 0
  {
    hide AtMostOne;
    if HasOwn(ls, id) {
      var k :| 0 <= k < |ls| && ls[k].guid == id;
      OthersWithout(ls, id, k);
    } else {
      OthersOfNone(ls, id);
    }
  }

  lemma UniqueOwn(ls: seq<Link>, id: string, k: nat)
    requires AtMostOne(ls, id) && k < |ls| && ls[k].guid == id
    ensures forall i | 0 <= i < |ls| && ls[i].guid == id :: i == k
  {
  }

  lemma PlacedLength(ls: seq<Link>, own: Link, position: int)
    requires PositionExists(ls, own.guid, position)
    ensures |Placed(ls, own, position)| == |Others(ls, own.guid)| + 1
  {
  }

  lemma DeletedIsRest(before: seq<Link>, now: seq<Link>, id: string, k: nat)
    requires AtMostOne(before, id) && k < |before| == |now| && before[k].guid == id
    requires forall i | 0 <= i < |before| && i != k :: now[i] == before[i]
    ensures Renumbered(Cut(now, k)) == Renumbered(Others(before, id))
  {
    OthersWithout(before, id, k);
    assert Cut(now, k) == Cut(before, k);
  }

  // ----- All targets -----

  predicate Distinct(ts: seq<Target>) { forall a, b | 0 <= a < b < |ts| :: ts[a] != ts[b] }

  /** The job's data for the targets, one entry for each. */
  datatype Request = Request(id: string, domain: string, expected: seq<seq<Link>>, orders: seq<int>, enable: bool)

  predicate Placeable(q: Request, ls: seq<Link>, n: nat)
    requires n < |q.expected| == |q.orders|
  {
    PlacingRefusal(ls, q.expected[n], q.id, q.orders[n]).None?
  }

  function PlacedFor(q: Request, t: Target, ls: seq<Link>, n: nat): seq<Link>
    requires n < |q.expected| == |q.orders| && Placeable(q, ls, n)
  {
    Placed(ls, Link(q.id, q.domain, t.dn, t.kind, q.enable, false, 0), q.orders[n])
  }

  /**
   Places the link on every target in turn. Targets before the first refused one are done, the refused one and
   those after it are untouched; a target that was full and had no link of this GPO is written before it is refused.
   */
  method UpdateLinks(ts: seq<Target>, q: Request, disabled: bool) returns (r: Option<Problem>, ghost done: nat)
    requires |ts| == |q.expected| == |q.orders| && Distinct(ts)
    requires forall n | 0 <= n < |ts| :: OwnFits(ts[n], q.id, q.domain)
    modifies ts
    ensures done <= |ts| && (r.None? ==> done == |ts|)
    ensures !disabled ==> done == 0 && r == Some(RequiresDisabled) && forall n | 0 <= n < |ts| :: ts[n].links == old(ts[n].links)
    ensures forall n | 0 <= n < done ::
              Placeable(q, old(ts[n].links), n) && !Overfull(old(ts[n].links), q.id)
              && ts[n].links == PlacedFor(q, ts[n], old(ts[n].links), n)
    ensures disabled && r.Some? ==>
              && done < |ts|
              && (if Placeable(q, old(ts[done].links), done)
                  then Overfull(old(ts[done].links), q.id) && ts[done].links == PlacedFor(q, ts[done], old(ts[done].links), done)
                  else ts[done].links == old(ts[done].links))
              && forall n | done < n < |ts| :: ts[n].links == old(ts[n].links)
    ensures forall n | 0 <= n < |ts| && old(ts[n].links) != q.expected[n] :: r.Some? && ts[n].links == old(ts[n].links)
    ensures forall n | 0 <= n < done :: ShowsPlacement(q, ts[n], old(ts[n].links), n)
  {
    hide Placed, PlacingRefusal, OwnFits, Overfull, ShowsPlacement;
    done := 0;
    if !disabled { return Some(RequiresDisabled), 0; }
    for n := 0 to |ts|
      invariant done == n
      invariant forall m | n <= m < |ts| :: ts[m].links == old(ts[m].links) && OwnFits(ts[m], q.id, q.domain)
      invariant forall m | 0 <= m < n :: old(ts[m].links) == q.expected[m] && ShowsPlacement(q, ts[m], old(ts[m].links), m)
      invariant forall m | 0 <= m < n ::
                  Placeable(q, old(ts[m].links), m) && !Overfull(old(ts[m].links), q.id)
                  && ts[m].links == PlacedFor(q, ts[m], old(ts[m].links), m)
    {
      r := PlaceLink(ts[n], q.id, q.domain, q.expected[n], q.orders[n], q.enable);
      if r.Some? { return; }
      PlacedIsShown(q, ts[n], old(ts[n].links), n);
      done := n + 1;
    }
    r := None;
  }

  /** The target shows the one link that was asked for, at its position and with its flags, and every other link as it was. */
  ghost predicate ShowsPlacement(q: Request, t: Target, before: seq<Link>, n: nat)
    requires n < |q.orders|
    reads t
  {
    && FindByGuid(t.links, q.id) == Some(Link(q.id, q.domain, t.dn, t.kind, q.enable, false, q.orders[n]))
    && Unrelated(t.links, q.id) == Unrelated(before, q.id) && Numbered(t.links) && AtMostOne(t.links, q.id)
  }

  lemma PlacedIsShown(q: Request, t: Target, before: seq<Link>, n: nat)
    requires n < |q.expected| == |q.orders| && Placeable(q, before, n) && t.links == PlacedFor(q, t, before, n)
    ensures ShowsPlacement(q, t, before, n) && before == q.expected[n]
  {
    hide Placed, Others, Unrelated, FindByGuid, Numbered, AtMostOne, KeepsOthers;
    var own := Link(q.id, q.domain, t.dn, t.kind, q.enable, false, 0);
    PlacementMeetsPostconditions(before, own, q.orders[n]);
    PlacedIsFound(before, own, q.orders[n]);
    RefusalIsDecided(before, q.expected[n], q.id);
  }

  /** One pass of the removal: the own link, if any, is deleted, and the rest must be numbered again without gaps. */
  method RemoveLink(t: Target, id: string, expected: seq<Link>) returns (r: Option<Problem>)
    requires Numbered(t.links)
    modifies t
    ensures r == Refusal(old(t.links), expected, id)
    ensures t.links == if r.Some? then old(t.links) else Renumbered(Others(old(t.links), id))
  {
    hide Others, Renumbered, AtMostOne;
    if |t.links| > MAXIMUM_LINKS { return Some(TargetInvalid); }
    if t.links != expected { return Some(StateChanged); }
    ghost var before := t.links;
    var remaining := Renumbered(Others(t.links, id));
    var conflict, found := t.FindOwn(id);
    if conflict { return Some(LinkConflict); }
    if found.Some? {
      UniqueOwn(before, id, found.value);
      if t.links[found.value].enforced { return Some(LinkConflict); }
      DeletedIsRest(before, before, id, found.value);
      t.Delete(found.value);
    } else {
      OthersOfNone(before, id);
      NumberedStays(before);
    }
    // The check of the source that follows the write cannot fire.
    if t.links != remaining { assert false; }
    r := None;
  }

  lemma NumberedStays(ls: seq<Link>)
    requires Numbered(ls)
    ensures Renumbered(ls) == ls
  {
  }

  /** Removes the links from every target; the policy itself is deleted afterwards, which is not part of this model. */
  method RemoveLinks(ts: seq<Target>, id: string, expected: seq<seq<Link>>) returns (r: Option<Problem>, ghost done: nat)
    requires |ts| == |expected| && Distinct(ts) && forall n | 0 <= n < |ts| :: Numbered(ts[n].links)
    modifies ts
    ensures done <= |ts| && (r.None? <==> done == |ts|)
    ensures forall n | 0 <= n < done ::
              Refusal(old(ts[n].links), expected[n], id).None? && ts[n].links == Renumbered(Others(old(ts[n].links), id))
    ensures forall n | done <= n < |ts| :: ts[n].links == old(ts[n].links)
    ensures r.Some? ==> r == Refusal(old(ts[done].links), expected[done], id)
  {
    hide Others, Renumbered, Refusal;
    done := 0;
    for n := 0 to |ts|
      invariant done == n
      invariant forall m | n <= m < |ts| :: ts[m].links == old(ts[m].links) && Numbered(ts[m].links)
      invariant forall m | 0 <= m < n ::
                  Refusal(old(ts[m].links), expected[m], id).None? && ts[m].links == Renumbered(Others(old(ts[m].links), id))
    {
      r := RemoveLink(ts[n], id, expected[n]);
      if r.Some? { return; }
      done := n + 1;
    }
    r := None;
  }

  // ----- What the checks before a write guarantee -----

  lemma {:induction false} OneCounted(ls: seq<Link>, id: string)
    ensures GpoManaged.CountOwn(ls, id) == |ls| - |Others(ls, id)|
  {
    if ls != [] { OneCounted(ls[1..], id); }
  }

  lemma {:induction false} CountedOnce(ls: seq<Link>, id: string)
    ensures GpoManaged.CountOwn(ls, id) == 0 <==> !HasOwn(ls, id)
    ensures GpoManaged.CountOwn(ls, id) <= 1 <==> AtMostOne(ls, id)
  {
    if ls != [] {
      CountedOnce(ls[1..], id);
      if AtMostOne(ls[1..], id) && !(ls[0].guid == id && HasOwn(ls[1..], id)) {
        forall a, b | 0 <= a < b < |ls| ensures ls[a].guid != id || ls[b].guid != id {
          if a == 0 { assert ls[b] == ls[1..][b - 1]; } else { assert ls[a] == ls[1..][a - 1] && ls[b] == ls[1..][b - 1]; }
        }
      }
      if AtMostOne(ls, id) {
        forall a, b | 0 <= a < b < |ls[1..]| ensures ls[1..][a].guid != id || ls[1..][b].guid != id {
          assert ls[1..][a] == ls[a + 1] && ls[1..][b] == ls[b + 1];
        }
      }
      if HasOwn(ls[1..], id) {
        var i :| 0 <= i < |ls[1..]| && ls[1..][i].guid == id;
        assert ls[i + 1].guid == id;
      }
      if HasOwn(ls, id) && ls[0].guid != id {
        var i :| 0 <= i < |ls| && ls[i].guid == id;
        assert ls[1..][i - 1].guid == id;
      }
    }
  }

  /**
   A target that was approved, is unchanged, and whose own link is not enforced is placed without any refusal:
   the position exists, and the list does not overflow.
   */
  lemma ApprovedIsPlaced(ls: seq<Link>, id: string, position: int)
    requires GpoManaged.PositionFits(ls, id, position) && |ls| <= MAXIMUM_LINKS
    requires forall i | 0 <= i < |ls| && ls[i].guid == id :: !ls[i].enforced
    ensures PlacingRefusal(ls, ls, id, position).None? && !Overfull(ls, id)
  {
    hide AtMostOne, Others;
    CountedOnce(ls, id);
    OneCounted(ls, id);
  }

  /** What a completed placement shows on a target: every other link kept, and the own link where it was asked for. */
  lemma PlacementMeetsPostconditions(ls: seq<Link>, own: Link, position: int)
    requires PositionExists(ls, own.guid, position)
    ensures var after := Placed(ls, own, position);
            && Unrelated(ls, own.guid) == Unrelated(after, own.guid) && Numbered(after)
            && FindByGuid(after, own.guid) == Some(own.(order := position))
  {
    PlacedKeepsOthers(ls, own, position);
    PlacedIsFound(ls, own, position);
  }

  /** Removal is undone by placing the link back where it was. */
  lemma RemoveThenPlace(ls: seq<Link>, id: string, k: nat)
    requires Numbered(ls) && AtMostOne(ls, id) && k < |ls| && ls[k].guid == id
    ensures var rest := Renumbered(Others(ls, id));
            PositionExists(rest, id, k + 1) && Placed(rest, ls[k], k + 1) == ls
  {
    hide Others;
    var rest := Renumbered(Others(ls, id));
    OthersHaveOthers(ls, id);
    OthersOfOthers(rest, id);
    Repositioned(ls, ls[k], k);
    CreatedIsPlaced(ls, rest, ls[k], k + 1);
  }

  /** The guard that approval adds is needed: a full list of foreign links is accepted, written, and then refused. */
  lemma FullListOverflows(foreign: Link, id: string)
    requires foreign.guid != id
    ensures var ls := seq(MAXIMUM_LINKS, i => foreign.(order := i + 1));
            Numbered(ls) && PlacingRefusal(ls, ls, id, 1).None? && Overfull(ls, id) && !GpoManaged.PositionFits(ls, id, 1)
  {
    var ls := seq(MAXIMUM_LINKS, i => foreign.(order := i + 1));
    OthersOfNone(ls, id);
    CountedOnce(ls, id);
  }
}
