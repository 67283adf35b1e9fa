/**
 The forest-wide census of a GPO's links: reading one container's gPLink text,
 merging what separate parts found, and comparing the whole with the links the
 management console reports.
 */
module GplinkCensus {
  import opened Wrappers
  import opened GpoRecord

  const MAXIMUM_TEXT := 65536
  const MAXIMUM_LINKS := 128

  // ----- gPLink text -----

  type Flags = n: nat | n <= 3

  /** One link: the scheme as it is spelled, the path after it, and the flags. */
  datatype Entry = Entry(scheme: string, path: string, flags: Flags)

  predicate WellFormed(e: Entry) {
    Lower(e.scheme) == "ldap://" && e.path != "" && ']' !in e.path
  }

  function Digit(n: Flags): char { ('0' as int + n) as char }

  function Render(e: Entry): string
  {
    "[" + (e.scheme + e.path + [';', Digit(e.flags)]) + "]"
  }

  function RenderAll(es: seq<Entry>): string
  {
    if es == [] then "" else Render(es[0]) + RenderAll(es[1..])
  }

  /** The first place of a character. */
  function IndexOf(s: string, c: char): (r: Option<nat>)
    ensures r.Some? ==> r.value < |s|
  {
    if s == "" then None
    else if s[0] == c then Some(0)
    else match IndexOf(s[1..], c) case None => None case Some(k) => Some(k + 1)
  }

  /** The part between the brackets: the flags follow the last semicolon. */
  function ReadSegment(s: string): Option<Entry> {
    var n := |s|;
    if n < 2 || s[n - 2] != ';' || !('0' <= s[n - 1] <= '3') then None
    else if n - 2 <= 7 || Lower(s[..7]) != "ldap://" then None
    else Some(Entry(s[..7], s[7..n - 2], s[n - 1] as int - '0' as int))
  }

  datatype Read = Read(entry: Entry, rest: string)

  function ReadEntry(s: string): (r: Option<Read>)
    requires s != ""
    ensures r.Some? ==> |r.value.rest| < |s|
  {
    if s[0] != '[' then None
    else
      match IndexOf(s[1..], ']')
      case None => None
      case Some(k) =>
        match ReadSegment(s[1..][..k])
        case None => None
        case Some(e) => Some(Read(e, s[1..][k + 1..]))
  }

  function ReadAll(s: string): Option<seq<Entry>>
    decreases |s|
  {
    if s == "" then Some([])
    else
      match ReadEntry(s)
      case None => None
      case Some(read) =>
        match ReadAll(read.rest)
        case None => None
        case Some(more) => Some([read.entry] + more)
  }

  predicate Names(e: Entry, dn: string) { Lower(e.path) == Lower(dn) }

  /** The flags of the links that name the policy, in order. */
  function Matches(es: seq<Entry>, dn: string): seq<Flags> {
    if es == [] then [] else Matches(es[..|es| - 1], dn) + if Names(es[|es| - 1], dn) then [es[|es| - 1].flags] else []
  }

  /** None where the source fails; otherwise the flags of the one match, if there is one. */
  function Match(text: string, dn: string): Option<Option<Flags>> {
    if |text| > MAXIMUM_TEXT then None
    else
      match ReadAll(text)
      case None => None
      case Some(es) =>
        if |es| > MAXIMUM_LINKS || |Matches(es, dn)| > 1 then None
        else Some(if Matches(es, dn) == [] then None else Some(Matches(es, dn)[0]))
  }

  lemma {:induction false} IndexOfFirst(a: string, c: char, rest: string)
    requires c !in a
    ensures IndexOf(a + [c] + rest, c) == Some(|a|)
  {
    if a == "" {
      assert a + [c] + rest == [c] + rest;
    } else {
      IndexOfFirst(a[1..], c, rest);
      assert (a + [c] + rest)[1..] == a[1..] + [c] + rest;
    }
  }

  lemma {:induction false} IndexOfIsFirst(s: string, c: char)
    requires IndexOf(s, c).Some?
    ensures s[IndexOf(s, c).value] == c && c !in s[..IndexOf(s, c).value]
  {
    if s[0] != c {
      IndexOfIsFirst(s[1..], c);
      var k := IndexOf(s[1..], c).value;
      assert s[..k + 1] == [s[0]] + s[1..][..k];
    }
  }

  lemma SchemeHasNoBracket(scheme: string)
    requires Lower(scheme) == "ldap://"
    ensures |scheme| == 7 && ']' !in scheme
  {
    assert |Lower(scheme)| == 7;
    forall i | 0 <= i < |scheme| ensures scheme[i] != ']' {
      assert Lower(scheme)[i] == LowerChar(scheme[i]);
    }
  }

  lemma SegmentIsRead(e: Entry)
    requires WellFormed(e)
    ensures var s := e.scheme + e.path + [';', Digit(e.flags)]; ReadSegment(s) == Some(e) && ']' !in s
  {
    SchemeHasNoBracket(e.scheme);
    var s := e.scheme + e.path + [';', Digit(e.flags)];
    assert s[..7] == e.scheme && s[7..|s| - 2] == e.path;
  }

  lemma EntryIsRead(e: Entry, rest: string)
    requires WellFormed(e)
    ensures Render(e) + rest != "" && ReadEntry(Render(e) + rest) == Some(Read(e, rest))
  {
    hide ReadSegment;
    var segment := e.scheme + e.path + [';', Digit(e.flags)];
    var tail := segment + [']'] + rest;
    SegmentIsRead(e);
    IndexOfFirst(segment, ']', rest);
    assert Render(e) + rest == ['['] + tail && (['['] + tail)[1..] == tail;
    assert tail[..|segment|] == segment && tail[|segment| + 1..] == rest;
  }

  /** The rendering of any list of links is read back as that list. */
  lemma {:induction false} RenderedIsRead(es: seq<Entry>)
    requires forall i | 0 <= i < |es| :: WellFormed(es[i])
    ensures ReadAll(RenderAll(es)) == Some(es)
  {
    hide ReadEntry, Render;
    if es != [] {
      EntryIsRead(es[0], RenderAll(es[1..]));
      RenderedIsRead(es[1..]);
      assert RenderAll(es) == Render(es[0]) + RenderAll(es[1..]);
      assert [es[0]] + es[1..] == es;
    }
  }

  lemma SegmentIsRendered(s: string)
    requires ReadSegment(s).Some? && ']' !in s
    ensures var e := ReadSegment(s).value; WellFormed(e) && s == e.scheme + e.path + [';', Digit(e.flags)]
  {
    var e := ReadSegment(s).value;
    forall i | 0 <= i < |e.path| ensures e.path[i] != ']' { assert e.path[i] == s[7 + i]; }
  }

  lemma EntryIsRendered(s: string)
    requires s != "" && ReadEntry(s).Some?
    ensures var r := ReadEntry(s).value; WellFormed(r.entry) && s == Render(r.entry) + r.rest
  {
    hide ReadSegment, WellFormed;
    var k := IndexOf(s[1..], ']').value;
    IndexOfIsFirst(s[1..], ']');
    SegmentIsRendered(s[1..][..k]);
    assert s == ['['] + s[1..] && s[1..] == s[1..][..k] + [']'] + s[1..][k + 1..];
  }

  /** Every text that is accepted is the rendering of the links read from it. */
  lemma {:induction false} ReadIsRendered(s: string)
    requires ReadAll(s).Some?
    ensures forall i | 0 <= i < |ReadAll(s).value| :: WellFormed(ReadAll(s).value[i])
    ensures RenderAll(ReadAll(s).value) == s
    decreases |s|
  {
    hide ReadEntry, Render;
    if s != "" {
      EntryIsRendered(s);
      ReadIsRendered(ReadEntry(s).value.rest);
      assert ReadAll(s).value[1..] == ReadAll(ReadEntry(s).value.rest).value;
    }
  }

  /** Main result on the text: what is found in the rendering of a list is decided by the list alone. */
  lemma MatchOfRendered(es: seq<Entry>, dn: string)
    requires forall i | 0 <= i < |es| :: WellFormed(es[i])
    requires |es| <= MAXIMUM_LINKS && |RenderAll(es)| <= MAXIMUM_TEXT
    ensures Match(RenderAll(es), dn).None? <==> exists a, b :: 0 <= a < b < |es| && Names(es[a], dn) && Names(es[b], dn)
    ensures forall k | 0 <= k < |es| && Names(es[k], dn) :: Match(RenderAll(es), dn) in {None, Some(Some(es[k].flags as Flags))}
    ensures (forall k | 0 <= k < |es| :: !Names(es[k], dn)) <==> Match(RenderAll(es), dn) == Some(None)
  {
    hide ReadAll, Names;
    RenderedIsRead(es);
    MatchesCount(es, dn);
  }

  predicate Twice(es: seq<Entry>, dn: string) {
    exists a, b :: 0 <= a < b < |es| && Names(es[a], dn) && Names(es[b], dn)
  }

  predicate Once(es: seq<Entry>, dn: string) { exists k :: 0 <= k < |es| && Names(es[k], dn) }

  lemma OnceGrows(front: seq<Entry>, last: Entry, dn: string)
    ensures Once(front + [last], dn) <==> Once(front, dn) || Names(last, dn)
    ensures Twice(front + [last], dn) <==> Twice(front, dn) || (Once(front, dn) && Names(last, dn))
  {
    hide Names;
    var es := front + [last];
    assert es[|front|] == last && forall k | 0 <= k < |front| :: es[k] == front[k];
    if Once(front, dn) {
      var k :| 0 <= k < |front| && Names(front[k], dn);
      assert Names(es[k], dn);
      if Names(last, dn) { assert Names(es[|front|], dn); }
    }
    if Twice(front, dn) {
      var a, b :| 0 <= a < b < |front| && Names(front[a], dn) && Names(front[b], dn);
      assert Names(es[a], dn) && Names(es[b], dn);
    }
    if Twice(es, dn) {
      var a, b :| 0 <= a < b < |es| && Names(es[a], dn) && Names(es[b], dn);
      assert Names(front[a], dn);
      if b < |front| { assert Names(front[b], dn); }
    }
    if Names(last, dn) { assert Names(es[|front|], dn); }
  }

  lemma {:induction false} MatchesCount(es: seq<Entry>, dn: string)
    ensures |Matches(es, dn)| > 1 <==> Twice(es, dn)
    ensures Matches(es, dn) == [] <==> !Once(es, dn)
    ensures |Matches(es, dn)| == 1 ==> forall k | 0 <= k < |es| && Names(es[k], dn) :: Matches(es, dn) == [es[k].flags]
  {
    hide Names, Twice, Once;
    if es == [] {
      NothingNamed(dn);
    } else {
      var n := |es| - 1;
      MatchesCount(es[..n], dn);
      OnceGrows(es[..n], es[n], dn);
      assert es == es[..n] + [es[n]];
      if Names(es[n], dn) && Matches(es[..n], dn) == [] { NotNamed(es[..n], dn); }
      forall k | 0 <= k < |es| && Names(es[k], dn) && |Matches(es, dn)| == 1 ensures Matches(es, dn) == [es[k].flags] {
        if k < n { assert Names(es[..n][k], dn); }
      }
    }
  }

  lemma NothingNamed(dn: string)
    ensures !Once([], dn) && !Twice([], dn)
  {
  }

  lemma NotNamed(es: seq<Entry>, dn: string)
    requires !Once(es, dn)
    ensures forall k | 0 <= k < |es| :: !Names(es[k], dn)
  {
  }

  // ----- The reading loop -----

  method FindFrom(s: string, c: char, start: nat) returns (r: Option<nat>)
    requires start <= |s|
    ensures r == match IndexOf(s[start..], c) case None => None case Some(k) => Some(start + k)
  {
    var i := start;
    while i < |s|
      invariant start <= i <= |s|
      invariant IndexOf(s[start..], c) == match IndexOf(s[i..], c) case None => None case Some(k) => Some(k + (i - start))
    {
      assert s[i..][1..] == s[i + 1..];
      if s[i] == c { return Some(i); }
      i := i + 1;
    }
    r := None;
  }

  /** The last place of a character. */
  method FindLast(s: string, c: char) returns (r: Option<nat>)
    ensures r.None? <==> c !in s
    ensures r.Some? ==> r.value < |s| && s[r.value] == c && c !in s[r.value + 1..]
  {
    var i := |s|;
    while i > 0
      invariant 0 <= i <= |s| && c !in s[i..]
    {
      if s[i - 1] == c { return Some(i - 1); }
      assert s[i - 1..] == [s[i - 1]] + s[i..];
      i := i - 1;
    }
    assert s[0..] == s;
    r := None;
  }

  method Segment(s: string) returns (r: Option<Entry>)
    ensures r == ReadSegment(s)
  {
    var delimiter := FindLast(s, ';');
    if delimiter.None? { return None; }
    var d := delimiter.value;
    if d + 2 != |s| || s[d + 1] < '0' || s[d + 1] > '3' {
      OnlyBeforeLast(s, d);
      return None;
    }
    var path := Lower(s[..d]);
    assert |path| >= 7 ==> path[..7] == Lower(s[..7]);
    if |path| < 7 || path[..7] != "ldap://" || |path| <= 7 { return None; }
    r := Some(Entry(s[..7], s[7..d], s[d + 1] as int - '0' as int));
  }

  lemma OnlyBeforeLast(s: string, d: nat)
    requires d < |s| && s[d] == ';' && ';' !in s[d + 1..]
    requires d + 2 != |s| || s[d + 1] < '0' || s[d + 1] > '3'
    ensures ReadSegment(s).None?
  {
    forall j | d < j < |s| ensures s[j] != ';' {
      assert s[j] == s[d + 1..][j - d - 1];
    }
  }

  lemma OneMore(s: string, front: seq<Entry>)
    requires s != ""
    ensures Prepend(front, ReadAll(s)) ==
            match ReadEntry(s) case None => None case Some(read) => Prepend(front + [read.entry], ReadAll(read.rest))
  {
    hide ReadEntry;
    if ReadEntry(s).Some? && ReadAll(ReadEntry(s).value.rest).Some? {
      var read := ReadEntry(s).value;
      assert front + ([read.entry] + ReadAll(read.rest).value) == front + [read.entry] + ReadAll(read.rest).value;
    }
  }

  lemma NothingMore(front: seq<Entry>)
    ensures Prepend(front, ReadAll("")) == Some(front)
  {
    assert front + [] == front;
  }

  lemma {:induction false} MatchesGrow(front: seq<Entry>, back: seq<Entry>, dn: string)
    ensures |Matches(front, dn)| <= |Matches(front + back, dn)|
    decreases |back|
  {
    hide Names;
    if back == [] {
      assert front + back == front;
    } else {
      var n := |back| - 1;
      MatchesGrow(front, back[..n], dn);
      assert (front + back)[..|front + back| - 1] == front + back[..n];
    }
  }

  lemma TooMany(text: string, done: seq<Entry>, rest: string, dn: string)
    requires ReadAll(text) == Prepend(done, ReadAll(rest))
    requires |done| > MAXIMUM_LINKS || |Matches(done, dn)| > 1
    ensures Match(text, dn).None?
  {
    hide ReadAll, Matches;
    if ReadAll(rest).Some? { MatchesGrow(done, ReadAll(rest).value, dn); }
  }

  lemma OneMatch(done: seq<Entry>, e: Entry, dn: string)
    ensures Matches(done + [e], dn) == Matches(done, dn) + if Names(e, dn) then [e.flags] else []
  {
    assert (done + [e])[..|done|] == done;
  }

  /** The flags of the one link to the policy; None where the source fails. */
  method MatchingLink(links: string, policyDn: string) returns (r: Option<Option<Flags>>)
    ensures r == Match(links, policyDn)
  {
    hide ReadAll, Matches, ReadSegment, Names;
    if |links| > MAXIMUM_TEXT { return None; }
    var match_: Option<Flags> := None;
    var offset, count := 0, 0;
    ghost var done: seq<Entry> := [];
    StartOf(links, policyDn);
    while offset < |links|
      invariant offset <= |links| && count == |done| <= MAXIMUM_LINKS
      invariant ReadAll(links) == Prepend(done, ReadAll(links[offset..]))
      invariant Matches(done, policyDn) == match match_ case None => [] case Some(f) => [f]
    {
      ghost var rest := links[offset..];
      OneMore(rest, done);
      count := count + 1;
      if links[offset] != '[' { return None; }
      var end := FindFrom(links, ']', offset + 1);
      assert rest[1..] == links[offset + 1..];
      if end.None? { return None; }
      var text := links[offset + 1..end.value];
      assert text == rest[1..][..end.value - (offset + 1)];
      var segment := Segment(text);
      if segment.None? { return None; }
      assert rest[1..][end.value - offset..] == links[end.value + 1..];
      OneMatch(done, segment.value, policyDn);
      done := done + [segment.value];
      if count > MAXIMUM_LINKS {
        TooMany(links, done, links[end.value + 1..], policyDn);
        return None;
      }
      if SameName(segment.value.path, policyDn, segment.value) {
        if match_.Some? {
          TooMany(links, done, links[end.value + 1..], policyDn);
          return None;
        }
        match_ := Some(segment.value.flags);
      }
      offset := end.value + 1;
    }
    assert links[offset..] == "";
    NothingMore(done);
    r := Some(match_);
  }

  function SameName(path: string, dn: string, ghost e: Entry): (b: bool)
    requires path == e.path
    ensures b == Names(e, dn)
  {
    Lower(path) == Lower(dn)
  }

  lemma StartOf(links: string, dn: string)
    ensures ReadAll(links) == Prepend([], ReadAll(links[0..])) && Matches([], dn) == []
  {
    hide ReadEntry;
    assert links[0..] == links;
    if ReadAll(links).Some? { assert [] + ReadAll(links).value == ReadAll(links).value; }
  }

  // ----- Merging separate parts -----

  type Locations = map<string, Flags>

  predicate Agree(a: Locations, b: Locations) { forall dn | dn in a && dn in b :: a[dn] == b[dn] }

  /** None where the source fails: a conflict, or more than the maximum after something was added. */
  function Merge(complete: Locations, observed: Locations): Option<Locations> {
    if Agree(complete, observed) && (observed == map[] || |complete + observed| <= MAXIMUM_LINKS) then Some(complete + observed) else None
  }

  lemma AtMost(a: set<string>, b: set<string>)
    requires a <= b
    ensures |a| <= |b|
  {
    if a != {} {
      var x :| x in a;
      AtMost(a - {x}, b - {x});
    }
  }

  class Census {
    var complete: Locations

    constructor ()
      ensures complete == map[]
    {
      complete := map[];
    }

    /** Adds one read's locations one by one; on failure the census is abandoned. */
    method MergeLocations(observed: Locations) returns (ok: bool)
      modifies this
      ensures ok <==> Merge(old(complete), observed).Some?
      ensures ok ==> complete == Merge(old(complete), observed).value
    {
      hide Partly, Merge;
      var todo := observed.Keys;
      ghost var start := complete;
      PartlyStart(start, observed);
      while todo != {}
        invariant todo <= observed.Keys && Partly(start, observed, observed.Keys - todo, complete)
        invariant todo != observed.Keys ==> |complete| <= MAXIMUM_LINKS
        decreases todo
      {
        var dn :| dn in todo;
        if dn in complete && complete[dn] != observed[dn] {
          PartlyConflict(start, observed, observed.Keys - todo, complete, dn);
          return false;
        }
        PartlyNext(start, observed, todo, complete, dn);
        if dn !in complete { complete := complete[dn := observed[dn]]; }
        todo := todo - {dn};
        if |complete| > MAXIMUM_LINKS {
          PartlyIsSmaller(start, observed, observed.Keys - todo, complete, dn);
          return false;
        }
      }
      assert observed.Keys - {} == observed.Keys;
      PartlyIsMerged(start, observed, complete);
      ok := true;
    }
  }

  /** The locations under `done` were added. */
  ghost predicate Partly(start: Locations, observed: Locations, done: set<string>, now: Locations) {
    && done <= observed.Keys && now.Keys == start.Keys + done
    && (forall dn | dn in start :: now[dn] == start[dn])
    && (forall dn | dn in done :: now[dn] == observed[dn])
  }

  lemma PartlyStart(start: Locations, observed: Locations)
    ensures Partly(start, observed, observed.Keys - observed.Keys, start)
  {
  }

  lemma PartlyNext(start: Locations, observed: Locations, todo: set<string>, now: Locations, dn: string)
    requires todo <= observed.Keys && dn in todo
    requires Partly(start, observed, observed.Keys - todo, now) && (dn in now ==> now[dn] == observed[dn])
    ensures Partly(start, observed, observed.Keys - (todo - {dn}), if dn in now then now else now[dn := observed[dn]])
    ensures dn in observed.Keys - (todo - {dn})
  {
    assert observed.Keys - todo + {dn} == observed.Keys - (todo - {dn});
  }

  lemma PartlyConflict(start: Locations, observed: Locations, done: set<string>, now: Locations, dn: string)
    requires Partly(start, observed, done, now) && dn in observed && dn in now && now[dn] != observed[dn]
    ensures Merge(start, observed).None?
  {
  }

  lemma PartlyIsMerged(start: Locations, observed: Locations, now: Locations)
    requires Partly(start, observed, observed.Keys, now) && (observed != map[] ==> |now| <= MAXIMUM_LINKS)
    ensures Merge(start, observed) == Some(now)
  {
    assert now == start + observed;
  }

  lemma PartlyIsSmaller(start: Locations, observed: Locations, done: set<string>, now: Locations, dn: string)
    requires Partly(start, observed, done, now) && |now| > MAXIMUM_LINKS && dn in done
    ensures Merge(start, observed).None?
  {
    AtMost(now.Keys, (start + observed).Keys);
    assert |now.Keys| == |now| && |(start + observed).Keys| == |start + observed|;
  }

  /** All reads merged in turn, from nothing. */
  function MergeAll(parts: seq<Locations>): Option<Locations> {
    if parts == [] then Some(map[])
    else
      match MergeAll(parts[..|parts| - 1])
      case None => None
      case Some(complete) => Merge(complete, parts[|parts| - 1])
  }

  ghost predicate AllAgree(parts: seq<Locations>) {
    forall i, j | 0 <= i < |parts| && 0 <= j < |parts| :: Agree(parts[i], parts[j])
  }

  ghost function Union(parts: seq<Locations>): Locations {
    if parts == [] then map[] else Union(parts[..|parts| - 1]) + parts[|parts| - 1]
  }

  lemma {:induction false} UnionHasAll(parts: seq<Locations>, dn: string)
    ensures dn in Union(parts) <==> exists i :: 0 <= i < |parts| && dn in parts[i]
  {
    if parts != [] {
      var n := |parts| - 1;
      UnionHasAll(parts[..n], dn);
      if dn in Union(parts[..n]) {
        var i :| 0 <= i < n && dn in parts[..n][i];
        assert dn in parts[i];
      }
      if i :| 0 <= i < |parts| && dn in parts[i] {
        if i < n { assert dn in parts[..n][i]; }
      }
    }
  }

  lemma AgreeFront(parts: seq<Locations>)
    requires parts != [] && AllAgree(parts)
    ensures AllAgree(parts[..|parts| - 1])
  {
    var front := parts[..|parts| - 1];
    forall i, j | 0 <= i < |front| && 0 <= j < |front| ensures Agree(front[i], front[j]) { assert Agree(parts[i], parts[j]); }
  }

  lemma {:induction false} UnionKeeps(parts: seq<Locations>, i: nat, dn: string)
    requires AllAgree(parts) && i < |parts| && dn in parts[i]
    ensures dn in Union(parts) && Union(parts)[dn] == parts[i][dn]
  {
    var n := |parts| - 1;
    assert Agree(parts[i], parts[n]);
    if i < n {
      AgreeFront(parts);
      UnionKeeps(parts[..n], i, dn);
    }
  }

  lemma UnionHolds(parts: seq<Locations>)
    ensures forall dn :: dn in Union(parts) <==> exists i :: 0 <= i < |parts| && dn in parts[i]
    ensures AllAgree(parts) ==> forall i, dn | 0 <= i < |parts| && dn in parts[i] :: dn in Union(parts) && Union(parts)[dn] == parts[i][dn]
  {
    hide Union, AllAgree;
    forall dn ensures dn in Union(parts) <==> exists i :: 0 <= i < |parts| && dn in parts[i] { UnionHasAll(parts, dn); }
    if AllAgree(parts) {
      forall i, dn | 0 <= i < |parts| && dn in parts[i] ensures dn in Union(parts) && Union(parts)[dn] == parts[i][dn] {
        UnionKeeps(parts, i, dn);
      }
    }
  }

  lemma AllAgreeFront(parts: seq<Locations>)
    requires parts != []
    ensures var n := |parts| - 1; AllAgree(parts) <==> AllAgree(parts[..n]) && Agree(Union(parts[..n]), parts[n])
  {
    hide Union, AllAgree;
    var n := |parts| - 1;
    if AllAgree(parts) { AgreeingFront(parts); }
    if AllAgree(parts[..n]) && Agree(Union(parts[..n]), parts[n]) { AgreeingWhole(parts); }
  }

  lemma AgreeingFront(parts: seq<Locations>)
    requires parts != [] && AllAgree(parts)
    ensures var n := |parts| - 1; AllAgree(parts[..n]) && Agree(Union(parts[..n]), parts[n])
  {
    hide Union;
    var n := |parts| - 1;
    var front := parts[..n];
    UnionHolds(front);
    forall i, j | 0 <= i < n && 0 <= j < n ensures Agree(front[i], front[j]) { assert Agree(parts[i], parts[j]); }
    forall dn | dn in Union(front) && dn in parts[n] ensures Union(front)[dn] == parts[n][dn] {
      var i :| 0 <= i < |front| && dn in front[i];
      assert Agree(parts[i], parts[n]);
    }
  }

  lemma AgreeingWhole(parts: seq<Locations>)
    requires parts != [] && AllAgree(parts[..|parts| - 1]) && Agree(Union(parts[..|parts| - 1]), parts[|parts| - 1])
    ensures AllAgree(parts)
  {
    hide Union;
    var n := |parts| - 1;
    var front := parts[..n];
    forall i, j | 0 <= i < |parts| && 0 <= j < |parts| ensures Agree(parts[i], parts[j]) {
      if i < n && j < n { assert Agree(front[i], front[j]); }
      else if i < n { AgreesWithLast(front, i, parts[n]); }
      else if j < n { AgreesWithLast(front, j, parts[n]); }
    }
  }

  lemma AgreesWithLast(front: seq<Locations>, i: nat, last: Locations)
    requires i < |front| && AllAgree(front) && Agree(Union(front), last)
    ensures Agree(front[i], last)
  {
    UnionHolds(front);
  }

  /** Merging succeeds exactly when all reads agree pairwise and there are few enough locations, and gives their union. */
  lemma {:induction false} MergeAllIsUnion(parts: seq<Locations>)
    ensures MergeAll(parts) == if AllAgree(parts) && |Union(parts)| <= MAXIMUM_LINKS then Some(Union(parts)) else None
  {
    hide AllAgree;
    if parts == [] {
      assert AllAgree(parts) by { NothingAgrees(parts); }
    } else {
      var n := |parts| - 1;
      var front := parts[..n];
      MergeAllIsUnion(front);
      AllAgreeFront(parts);
      AtMost(Union(front).Keys, Union(parts).Keys);
      assert |Union(front).Keys| == |Union(front)| && |Union(parts).Keys| == |Union(parts)|;
      if parts[n] == map[] { assert Union(front) + map[] == Union(front); }
    }
  }

  lemma NothingAgrees(parts: seq<Locations>)
    requires parts == []
    ensures AllAgree(parts)
  {
  }

  lemma SameUnion(a: seq<Locations>, b: seq<Locations>)
    requires AllAgree(a) && AllAgree(b)
    requires forall read :: read in a <==> read in b
    ensures Union(a) == Union(b)
  {
    UnionHolds(a);
    UnionHolds(b);
    forall dn ensures dn in Union(a) <==> dn in Union(b) {
      if i :| 0 <= i < |a| && dn in a[i] { assert a[i] in b; }
      if i :| 0 <= i < |b| && dn in b[i] { assert b[i] in a; }
    }
    forall dn | dn in Union(a) ensures Union(a)[dn] == Union(b)[dn] {
      var i :| 0 <= i < |a| && dn in a[i];
      assert a[i] in b;
      var j :| 0 <= j < |b| && b[j] == a[i];
    }
  }

  lemma AgreementTransfers(a: seq<Locations>, b: seq<Locations>)
    requires AllAgree(a) && forall read :: read in a <==> read in b
    ensures AllAgree(b)
  {
    forall i, j | 0 <= i < |b| && 0 <= j < |b| ensures Agree(b[i], b[j]) {
      assert b[i] in a && b[j] in a;
      var k :| 0 <= k < |a| && a[k] == b[i];
      var m :| 0 <= m < |a| && a[m] == b[j];
      assert Agree(a[k], a[m]);
    }
  }

  /** Main result on merging: neither the order of the reads nor repeating one makes a difference, to success or result. */
  lemma MergeIgnoresOrderAndRepeats(a: seq<Locations>, b: seq<Locations>)
    requires forall read :: read in a <==> read in b
    ensures MergeAll(a) == MergeAll(b)
  {
    hide MergeAll, Union, AllAgree;
    MergeAllIsUnion(a);
    MergeAllIsUnion(b);
    if AllAgree(a) { AgreementTransfers(a, b); }
    if AllAgree(b) { AgreementTransfers(b, a); }
    if AllAgree(a) && AllAgree(b) { SameUnion(a, b); }
  }

  // ----- The census -----

  function EnabledBy(flags: Flags): bool { flags % 2 == 0 }

  function EnforcedBy(flags: Flags): bool { flags / 2 % 2 != 0 }

  /** Bit 0 disables a link and bit 1 enforces it. */
  lemma FlagsMean(flags: Flags)
    ensures EnabledBy(flags) <==> flags == 0 || flags == 2
    ensures EnforcedBy(flags) <==> flags == 2 || flags == 3
  {
    match flags { case 0 => case 1 => case 2 => case _ => }
  }

  predicate SameFlags(l: Link, flags: Flags) { l.enabled == EnabledBy(flags) && l.enforced == EnforcedBy(flags) }

  /** The observed links stand one for one for the known locations, with the same flags. */
  ghost predicate Bijection(observed: seq<Link>, complete: Locations) {
    && (forall i, j | 0 <= i < j < |observed| :: Lower(observed[i].dn) != Lower(observed[j].dn))
    && (forall i | 0 <= i < |observed| :: Lower(observed[i].dn) in complete && SameFlags(observed[i], complete[Lower(observed[i].dn)]))
    && (forall dn | dn in complete :: exists i :: 0 <= i < |observed| && Lower(observed[i].dn) == dn)
  }

  ghost function Places(observed: seq<Link>): set<string> { set i | 0 <= i < |observed| :: Lower(observed[i].dn) }

  lemma {:induction false} DistinctPlaces(observed: seq<Link>)
    requires forall i, j | 0 <= i < j < |observed| :: Lower(observed[i].dn) != Lower(observed[j].dn)
    ensures |Places(observed)| == |observed|
  {
    hide Lower, Places;
    if observed == [] {
      NoPlaces(observed);
    } else {
      var n := |observed| - 1;
      var front := observed[..n];
      DistinctPlaces(front);
      PlacesGrow(observed);
    }
  }

  lemma NoPlaces(observed: seq<Link>)
    requires observed == []
    ensures Places(observed) == {}
  {
  }

  lemma PlacesGrow(observed: seq<Link>)
    requires observed != []
    ensures var n := |observed| - 1; var last := Lower(observed[n].dn);
            && Places(observed) == Places(observed[..n]) + {last}
            && ((forall i | 0 <= i < n :: Lower(observed[i].dn) != last) ==> last !in Places(observed[..n]))
  {
    hide Lower;
  }

  lemma SameSizeIsAll(some: set<string>, all: set<string>)
    requires some <= all && |some| == |all|
    ensures some == all
  {
    if x :| x in all && x !in some { AtMost(some, all - {x}); }
  }

  /** Equal size, every link known and none repeated: that is a bijection, because of the counts. */
  lemma CountsMakeBijection(observed: seq<Link>, complete: Locations)
    requires forall i, j | 0 <= i < j < |observed| :: Lower(observed[i].dn) != Lower(observed[j].dn)
    requires forall i | 0 <= i < |observed| :: Lower(observed[i].dn) in complete && SameFlags(observed[i], complete[Lower(observed[i].dn)])
    ensures |observed| == |complete| <==> Bijection(observed, complete)
  {
    hide Lower, SameFlags;
    DistinctPlaces(observed);
    assert |complete.Keys| == |complete|;
    if |observed| == |complete| {
      SameSizeIsAll(Places(observed), complete.Keys);
    }
    if Bijection(observed, complete) {
      assert Places(observed) == complete.Keys;
    }
  }

  /** Main result on the census: it accepts exactly the observations in flag-preserving bijection with the locations. */
  method VerifyCensus(observed: seq<Link>, complete: Locations) returns (ok: bool)
    ensures ok <==> |observed| <= MAXIMUM_LINKS && Bijection(observed, complete)
  {
    hide Lower, SameFlags, EnabledBy, EnforcedBy;
    if |observed| != |complete| || |observed| > MAXIMUM_LINKS {
      if |observed| != |complete| { UnequalIsNoBijection(observed, complete); }
      return false;
    }
    var seen: set<string> := {};
    for i := 0 to |observed|
      invariant seen == Places(observed[..i])
      invariant forall a, b | 0 <= a < b < i :: Lower(observed[a].dn) != Lower(observed[b].dn)
      invariant forall a | 0 <= a < i :: Lower(observed[a].dn) in complete && SameFlags(observed[a], complete[Lower(observed[a].dn)])
    {
      var location := Lower(observed[i].dn);
      if location !in complete || location in seen { return false; }
      if observed[i].enabled != EnabledBy(complete[location]) || observed[i].enforced != EnforcedBy(complete[location]) {
        OtherFlags(observed[i], complete[location]);
        return false;
      }
      TheseFlags(observed[i], complete[location]);
      assert Places(observed[..i + 1]) == Places(observed[..i]) + {location};
      seen := seen + {location};
    }
    CountsMakeBijection(observed, complete);
    ok := true;
  }

  lemma UnequalIsNoBijection(observed: seq<Link>, complete: Locations)
    requires |observed| != |complete|
    ensures !Bijection(observed, complete)
  {
    hide Lower, SameFlags;
    if Bijection(observed, complete) { CountsMakeBijection(observed, complete); }
  }

  lemma OtherFlags(l: Link, flags: Flags)
    requires l.enabled != EnabledBy(flags) || l.enforced != EnforcedBy(flags)
    ensures !SameFlags(l, flags)
  {
  }

  lemma TheseFlags(l: Link, flags: Flags)
    requires l.enabled == EnabledBy(flags) && l.enforced == EnforcedBy(flags)
    ensures SameFlags(l, flags)
  {
  }
}
