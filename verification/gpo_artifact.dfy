/**
 The IPMSGPO1 artifact: the file contents of one component in the order of
 their names, with the encoder and both decoders. The digest is any function
 of the bytes.
 */
module GpoArtifact {
  import opened Wrappers
  import opened LittleEndian
  import opened ManagementJsonText

  const MAGIC := "IPMSGPO1"
  const MAXIMUM_FILES := 16
  const MAXIMUM_FILE := 512 * 1024
  const MAXIMUM_ARTIFACT := 1024 * 1024

  type Digest = string -> string

  datatype File = File(path: string, bytes: int, sha256: string)

  datatype Component = Component(files: seq<File>, size: int, sha256: string)

  // ----- The encoder -----

  function Member(content: string): string { Word(|content|) + content }

  function Body(contents: seq<string>): string {
    if contents == [] then "" else Member(contents[0]) + Body(contents[1..])
  }

  function Contents(files: map<string, string>, names: seq<string>): seq<string>
    requires forall name | name in names :: name in files
  {
    if names == [] then [] else [files[names[0]]] + Contents(files, names[1..])
  }

  /** The contents in the order of their names. */
  function InOrder(files: map<string, string>): seq<string> { Contents(files, Sorted(files.Keys)) }

  function Packed(contents: seq<string>): string { MAGIC + Word(|contents|) + Body(contents) }

  /** Where a member starts: after every earlier one with its length. */
  function OffsetOf(contents: seq<string>, k: nat): nat
    requires k <= |contents|
  {
    if k == 0 then 0 else OffsetOf(contents, k - 1) + 4 + |contents[k - 1]|
  }

  lemma BodyFirst(contents: seq<string>)
    requires contents != []
    ensures var b := Body(contents); var size := |contents[0]|;
            && |b| >= 4 + size && b[..4] == Word(size) && b[4..4 + size] == contents[0] && b[4 + size..] == Body(contents[1..])
  {
    hide Word;
    WordWraps(|contents[0]|);
    assert Body(contents) == Word(|contents[0]|) + contents[0] + Body(contents[1..]);
  }

  lemma {:induction false} MemberIn(contents: seq<string>, k: nat)
    requires k <= |contents|
    ensures OffsetOf(contents, k) <= |Body(contents)|
    ensures Body(contents)[OffsetOf(contents, k)..] == Body(contents[k..])
    decreases k
  {
    hide Body;
    if k == 0 {
      assert contents[0..] == contents;
    } else {
      MemberIn(contents, k - 1);
      BodyFirst(contents[k - 1..]);
      assert contents[k - 1..][1..] == contents[k..] && contents[k - 1..][0] == contents[k - 1];
      var at, size := OffsetOf(contents, k - 1), |contents[k - 1]|;
      assert Body(contents)[at..][4 + size..] == Body(contents)[at + 4 + size..];
    }
  }

  /** The bytes of a packed artifact: the mark, the count, and each member's length before its content; numbers low byte first. */
  lemma PackedBytes(contents: seq<string>, k: nat)
    requires k < |contents|
    ensures var bytes := Packed(contents); var at := 12 + OffsetOf(contents, k); var size := |contents[k]|;
            && |bytes| == 12 + OffsetOf(contents, |contents|) && |bytes| >= at + 4 + size
            && bytes[..8] == "IPMSGPO1" && bytes[8..12] == Word(|contents|)
            && bytes[at..at + 4] == Word(size) && bytes[at + 4..at + 4 + size] == contents[k]
  {
    hide Word, Body, Packed, OffsetOf;
    WordWraps(|contents|);
    MemberIn(contents, k);
    MemberIn(contents, |contents|);
    BodyFirst(contents[k..]);
    EmptyBody(contents[|contents|..]);
    PackedStarts(contents);
    assert contents[k..][0] == contents[k];
    Deeper(Packed(contents), Body(contents), OffsetOf(contents, k), |contents[k]|);
  }

  lemma PackedStarts(contents: seq<string>)
    ensures var bytes := Packed(contents);
            |bytes| == 12 + |Body(contents)| && bytes[..8] == "IPMSGPO1" && bytes[8..12] == Word(|contents|) && bytes[12..] == Body(contents)
  {
    hide Word, Body;
    WordWraps(|contents|);
  }

  lemma Deeper(bytes: string, body: string, at: nat, size: nat)
    requires |bytes| >= 12 && bytes[12..] == body && at + 4 + size <= |body|
    ensures bytes[12 + at..12 + at + 4] == body[at..][..4] && bytes[12 + at + 4..12 + at + 4 + size] == body[at..][4..4 + size]
  {
    assert body[at..][..4] == bytes[12 + at..12 + at + 4];
    assert body[at..][4..4 + size] == bytes[12 + at + 4..12 + at + 4 + size];
  }

  lemma EmptyBody(contents: seq<string>)
    requires contents == []
    ensures Body(contents) == ""
  {
  }

  function EncodeArtifact(files: map<string, string>): Option<string> {
    if !(0 < |files| <= MAXIMUM_FILES) || exists name :: name in files && !(0 < |files[name]| <= MAXIMUM_FILE) then None
    else if |Packed(InOrder(files))| > MAXIMUM_ARTIFACT then None
    else Some(Packed(InOrder(files)))
  }

  function Describe(files: map<string, string>, names: seq<string>, digest: Digest): seq<File>
    requires forall name | name in names :: name in files
  {
    if names == [] then []
    else [File(names[0], |files[names[0]]|, digest(files[names[0]]))] + Describe(files, names[1..], digest)
  }

  /** The catalog entry of an encoded artifact. */
  function Catalogued(files: map<string, string>, artifact: string, digest: Digest): Component {
    Component(Describe(files, Sorted(files.Keys), digest), |artifact|, digest(artifact))
  }

  // ----- The two decoders -----

  /** The members that follow each other, with the descriptor's sizes and digests, and nothing after them. */
  function ReadMembers(fs: seq<File>, s: string, limit: nat, digest: Digest): Option<seq<string>> {
    if fs == [] then if s == "" then Some([]) else None
    else if |s| < 4 then None
    else
      var size := Little(s[..4]);
      if size != fs[0].bytes || size > limit || size > |s| - 4 then None
      else
        var content := s[4..4 + size];
        if digest(content) != fs[0].sha256 then None
        else
          match ReadMembers(fs[1..], s[4 + size..], limit, digest)
          case None => None
          case Some(more) => Some([content] + more)
  }

  predicate Headed(c: Component, bytes: string, digest: Digest) {
    |bytes| >= 12 && |bytes| == c.size && bytes[..8] == MAGIC && digest(bytes) == c.sha256 && Little(bytes[8..12]) == |c.files|
  }

  /** The Agent's decoder. */
  function Decoded(c: Component, bytes: string, digest: Digest): Option<seq<string>> {
    if !Headed(c, bytes, digest) || |bytes| > MAXIMUM_ARTIFACT || !(0 < |c.files| <= MAXIMUM_FILES) then None
    else ReadMembers(c.files, bytes[12..], MAXIMUM_FILE, digest)
  }

  function Named(fs: seq<File>, contents: seq<string>): map<string, string>
    requires |fs| == |contents|
  {
    if fs == [] then map[] else Named(fs[..|fs| - 1], contents[..|fs| - 1])[fs[|fs| - 1].path := contents[|fs| - 1]]
  }

  lemma {:induction false} MembersAreCounted(fs: seq<File>, s: string, limit: nat, digest: Digest)
    ensures ReadMembers(fs, s, limit, digest).Some? ==> |ReadMembers(fs, s, limit, digest).value| == |fs|
  {
    if fs != [] && |s| >= 4 && Little(s[..4]) <= |s| - 4 { MembersAreCounted(fs[1..], s[4 + Little(s[..4])..], limit, digest); }
  }

  /** The importer's decoder: no limits of its own, and files by name. */
  function Unpacked(c: Component, raw: string, digest: Digest): Option<map<string, string>> {
    if !Headed(c, raw, digest) then None
    else
      match ReadMembers(c.files, raw[12..], |raw|, digest)
      case None => None
      case Some(contents) => MembersAreCounted(c.files, raw[12..], |raw|, digest); Some(Named(c.files, contents))
  }

  // ----- Both decoders undo the encoder -----

  lemma MemberIsRead(content: string, rest: string)
    requires |content| < 0x1_0000_0000
    ensures var s := Member(content) + rest;
            |s| >= 4 + |content| && Little(s[..4]) == |content| && s[4..4 + |content|] == content && s[4 + |content|..] == rest
  {
    hide Word, Little;
    WordWraps(|content|);
    assert (Member(content) + rest)[..4] == Word(|content|);
  }

  lemma {:induction false} BodyIsRead(files: map<string, string>, names: seq<string>, limit: nat, digest: Digest)
    requires forall name | name in names :: name in files && |files[name]| <= limit < 0x1_0000_0000
    ensures ReadMembers(Describe(files, names, digest), Body(Contents(files, names)), limit, digest) == Some(Contents(files, names))
  {
    hide Member, Little;
    if names != [] {
      var contents := Contents(files, names);
      assert contents[1..] == Contents(files, names[1..]);
      assert Describe(files, names, digest)[1..] == Describe(files, names[1..], digest);
      MemberIsRead(contents[0], Body(contents[1..]));
      BodyIsRead(files, names[1..], limit, digest);
      assert [contents[0]] + contents[1..] == contents;
    }
  }

  lemma HeaderIsRead(contents: seq<string>)
    requires |contents| < 0x1_0000_0000
    ensures var s := Packed(contents); |s| >= 12 && s[..8] == MAGIC && Little(s[8..12]) == |contents| && s[12..] == Body(contents)
  {
    hide Word, Little, Body;
    WordWraps(|contents|);
    assert Packed(contents)[8..12] == Word(|contents|);
  }

  lemma {:induction false} ContentsCounted(files: map<string, string>, names: seq<string>, digest: Digest)
    requires forall name | name in names :: name in files
    ensures |Contents(files, names)| == |names| == |Describe(files, names, digest)|
  {
    if names != [] { ContentsCounted(files, names[1..], digest); }
  }

  lemma KeysCounted(files: map<string, string>)
    ensures |files.Keys| == |files|
  {
  }

  /** Main result: the Agent's decoder gives the contents back in the order of their names. */
  lemma DecodeAfterEncode(files: map<string, string>, digest: Digest)
    requires EncodeArtifact(files).Some?
    ensures Decoded(Catalogued(files, EncodeArtifact(files).value, digest), EncodeArtifact(files).value, digest) == Some(InOrder(files))
  {
    hide ReadMembers, Body, Describe, Contents, Little, Sorted;
    var names := Sorted(files.Keys);
    KeysCounted(files);
    ContentsCounted(files, names, digest);
    HeaderIsRead(InOrder(files));
    BodyIsRead(files, names, MAXIMUM_FILE, digest);
  }

  /** Main result: the importer's decoder gives the files back. */
  lemma UnpackAfterEncode(files: map<string, string>, digest: Digest)
    requires EncodeArtifact(files).Some?
    ensures Unpacked(Catalogued(files, EncodeArtifact(files).value, digest), EncodeArtifact(files).value, digest) == Some(files)
  {
    hide ReadMembers, Body, Describe, Contents, Little, Sorted, Named;
    var names := Sorted(files.Keys);
    KeysCounted(files);
    ContentsCounted(files, names, digest);
    HeaderIsRead(InOrder(files));
    var raw := EncodeArtifact(files).value;
    forall name | name in names ensures |files[name]| <= |raw| { ContentFits(files, name); }
    BodyIsRead(files, names, |raw|, digest);
    NamedIsFiles(files, names, digest);
  }

  lemma {:induction false} ContentFitsBody(files: map<string, string>, names: seq<string>, name: string)
    requires (forall n | n in names :: n in files) && name in names
    ensures |files[name]| <= |Body(Contents(files, names))|
  {
    hide Word;
    assert Contents(files, names)[1..] == Contents(files, names[1..]);
    if names[0] != name { ContentFitsBody(files, names[1..], name); }
  }

  lemma ContentFits(files: map<string, string>, name: string)
    requires name in files
    ensures |files[name]| <= |Packed(InOrder(files))|
  {
    hide Word, Body, Contents;
    ContentFitsBody(files, Sorted(files.Keys), name);
  }

  lemma {:induction false} NamedHolds(files: map<string, string>, names: seq<string>, fs: seq<File>, cs: seq<string>)
    requires |names| == |fs| == |cs|
    requires forall i | 0 <= i < |names| :: names[i] in files && fs[i].path == names[i] && cs[i] == files[names[i]]
    ensures forall n :: n in Named(fs, cs) <==> n in names
    ensures forall n | n in Named(fs, cs) :: n in files && Named(fs, cs)[n] == files[n]
  {
    if names != [] {
      var k := |names| - 1;
      NamedHolds(files, names[..k], fs[..k], cs[..k]);
      assert names == names[..k] + [names[k]];
    }
  }

  lemma {:induction false} DescribedAt(files: map<string, string>, names: seq<string>, k: nat, digest: Digest)
    requires (forall n | n in names :: n in files) && k < |names|
    ensures |Describe(files, names, digest)| == |names| == |Contents(files, names)|
    ensures Describe(files, names, digest)[k].path == names[k] && Contents(files, names)[k] == files[names[k]]
  {
    ContentsCounted(files, names, digest);
    if k > 0 { DescribedAt(files, names[1..], k - 1, digest); }
  }

  lemma NamedIsFiles(files: map<string, string>, names: seq<string>, digest: Digest)
    requires names == Sorted(files.Keys)
    ensures |Describe(files, names, digest)| == |Contents(files, names)|
    ensures Named(Describe(files, names, digest), Contents(files, names)) == files
  {
    hide Named, Describe, Contents, Sorted;
    ContentsCounted(files, names, digest);
    var fs, cs := Describe(files, names, digest), Contents(files, names);
    forall i | 0 <= i < |names| ensures fs[i].path == names[i] && cs[i] == files[names[i]] {
      DescribedAt(files, names, i, digest);
    }
    NamedHolds(files, names, fs, cs);
  }

  // ----- What is accepted is an encoding -----

  lemma AcceptedMember(s: string, size: nat)
    requires AllBytes(s) && |s| >= 4 && size == Little(s[..4]) && size <= |s| - 4
    ensures s == Member(s[4..4 + size]) + s[4 + size..]
  {
    hide Word, Little;
    WordOfLittle(s[..4]);
    assert s[..4] + s[4..4 + size] + s[4 + size..] == s;
  }

  lemma {:induction false} AcceptedBody(fs: seq<File>, s: string, limit: nat, digest: Digest)
    requires ReadMembers(fs, s, limit, digest).Some? && AllBytes(s)
    ensures s == Body(ReadMembers(fs, s, limit, digest).value)
  {
    hide Member, Little;
    if fs != [] {
      var size := Little(s[..4]);
      AcceptedBody(fs[1..], s[4 + size..], limit, digest);
      AcceptedMember(s, size);
      var cs := ReadMembers(fs, s, limit, digest).value;
      assert cs[1..] == ReadMembers(fs[1..], s[4 + size..], limit, digest).value;
    }
  }

  predicate Described(f: File, content: string, limit: nat, digest: Digest) {
    |content| == f.bytes && |content| <= limit && digest(content) == f.sha256
  }

  lemma {:induction false} AcceptedIsDescribed(fs: seq<File>, s: string, limit: nat, digest: Digest)
    requires ReadMembers(fs, s, limit, digest).Some?
    ensures var cs := ReadMembers(fs, s, limit, digest).value;
            |cs| == |fs| && forall i | 0 <= i < |cs| :: Described(fs[i], cs[i], limit, digest)
  {
    hide Little;
    if fs != [] {
      var rest := s[4 + Little(s[..4])..];
      AcceptedIsDescribed(fs[1..], rest, limit, digest);
      var cs := ReadMembers(fs, s, limit, digest).value;
      assert cs == [cs[0]] + ReadMembers(fs[1..], rest, limit, digest).value;
      assert Described(fs[0], cs[0], limit, digest);
    }
  }

  /** Main result: any bytes the Agent accepts are the packing of what it returns, which is what the catalog describes. */
  lemma EncodeAfterDecode(c: Component, bytes: string, digest: Digest)
    requires Decoded(c, bytes, digest).Some? && AllBytes(bytes)
    ensures var cs := Decoded(c, bytes, digest).value;
            && bytes == Packed(cs) && |cs| == |c.files|
            && forall i | 0 <= i < |cs| :: Described(c.files[i], cs[i], MAXIMUM_FILE, digest)
  {
    hide Word, Little, ReadMembers, Body;
    AcceptedBody(c.files, bytes[12..], MAXIMUM_FILE, digest);
    AcceptedIsDescribed(c.files, bytes[12..], MAXIMUM_FILE, digest);
    WordOfLittle(bytes[8..12]);
    assert bytes == bytes[..8] + bytes[8..12] + bytes[12..];
  }

  lemma {:induction false} LimitsOnly(fs: seq<File>, s: string, low: nat, high: nat, digest: Digest)
    requires low <= high
    ensures ReadMembers(fs, s, low, digest).Some? ==> ReadMembers(fs, s, high, digest) == ReadMembers(fs, s, low, digest)
    ensures ReadMembers(fs, s, high, digest).Some? && (forall i | 0 <= i < |fs| :: fs[i].bytes <= low) ==>
              ReadMembers(fs, s, low, digest) == ReadMembers(fs, s, high, digest)
  {
    if fs != [] && |s| >= 4 && Little(s[..4]) <= |s| - 4 {
      LimitsOnly(fs[1..], s[4 + Little(s[..4])..], low, high, digest);
    }
  }

  lemma {:induction false} LongEnough(fs: seq<File>, s: string, a: nat, b: nat, digest: Digest)
    requires |s| <= a && |s| <= b
    ensures ReadMembers(fs, s, a, digest) == ReadMembers(fs, s, b, digest)
  {
    if fs != [] && |s| >= 4 && Little(s[..4]) <= |s| - 4 {
      LongEnough(fs[1..], s[4 + Little(s[..4])..], a, b, digest);
    }
  }

  /** Main result: within the Agent's limits the two decoders accept the same bytes and read the same contents. */
  lemma DecodersAgree(c: Component, bytes: string, digest: Digest)
    requires |bytes| <= MAXIMUM_ARTIFACT && 0 < |c.files| <= MAXIMUM_FILES
    requires forall i | 0 <= i < |c.files| :: c.files[i].bytes <= MAXIMUM_FILE
    ensures Decoded(c, bytes, digest).Some? <==> Unpacked(c, bytes, digest).Some?
    ensures Decoded(c, bytes, digest).Some? ==>
              |c.files| == |Decoded(c, bytes, digest).value|
              && Unpacked(c, bytes, digest) == Some(Named(c.files, Decoded(c, bytes, digest).value))
  {
    hide ReadMembers, Named, Little;
    if Headed(c, bytes, digest) {
      var high := MAXIMUM_FILE + |bytes|;
      LimitsOnly(c.files, bytes[12..], MAXIMUM_FILE, high, digest);
      LongEnough(c.files, bytes[12..], |bytes|, high, digest);
      MembersAreCounted(c.files, bytes[12..], MAXIMUM_FILE, digest);
    }
  }

  // ----- The decoding loops -----

  datatype Span = Span(offset: nat, size: nat)

  predicate Inside(span: Span, bytes: string) { span.offset + span.size <= |bytes| }

  /** Each span starts four bytes after the one before it ends, and the last ends where the bytes do. */
  predicate Tiles(spans: seq<Span>, start: nat, end: nat) {
    if spans == [] then start == end
    else spans[|spans| - 1].offset + spans[|spans| - 1].size == end
         && spans[|spans| - 1].offset >= 4 && Tiles(spans[..|spans| - 1], start, spans[|spans| - 1].offset - 4)
  }

  function TextOf(span: Span, bytes: string): string {
    if Inside(span, bytes) then bytes[span.offset..span.offset + span.size] else ""
  }

  function Cut(spans: seq<Span>, bytes: string): seq<string> {
    if spans == [] then [] else Cut(spans[..|spans| - 1], bytes) + [TextOf(spans[|spans| - 1], bytes)]
  }

  lemma Finished(front: seq<string>, limit: nat, digest: Digest, rest: string)
    ensures Prepend(front, ReadMembers([], rest, limit, digest)) == if rest == "" then Some(front) else None
  {
    assert front + [] == front;
  }

  lemma OneMember(front: seq<string>, fs: seq<File>, s: string, limit: nat, digest: Digest)
    requires fs != [] && |s| >= 4
    ensures var size := Little(s[..4]);
            Prepend(front, ReadMembers(fs, s, limit, digest)) ==
            if size != fs[0].bytes || size > limit || size > |s| - 4 || digest(s[4..4 + size]) != fs[0].sha256 then None
            else Prepend(front + [s[4..4 + size]], ReadMembers(fs[1..], s[4 + size..], limit, digest))
  {
    hide Little;
    var size := Little(s[..4]);
    if size <= |s| - 4 && ReadMembers(fs[1..], s[4 + size..], limit, digest).Some? {
      var more := ReadMembers(fs[1..], s[4 + size..], limit, digest).value;
      assert front + ([s[4..4 + size]] + more) == front + [s[4..4 + size]] + more;
    }
  }

  /** Four bytes at an offset, low byte first, added up as the source shifts them in. */
  method ReadWord(bytes: string, offset: nat) returns (r: Option<nat>)
    requires offset <= |bytes|
    ensures r.None? <==> |bytes| - offset < 4
    ensures r.Some? ==> r.value == Little(bytes[offset..][..4])
  {
    if |bytes| - offset < 4 { return None; }
    var v, weight := 0, 1;
    LittleOfFour(bytes[offset..][..4]);
    for i := 0 to 4
      invariant weight == if i == 0 then 1 else if i == 1 then 256 else if i == 2 then 65536 else if i == 3 then 16777216 else 4294967296
      invariant v == (if i > 0 then Byte(bytes[offset]) else 0) + (if i > 1 then 256 * Byte(bytes[offset + 1]) else 0)
                     + (if i > 2 then 65536 * Byte(bytes[offset + 2]) else 0) + (if i > 3 then 16777216 * Byte(bytes[offset + 3]) else 0)
    {
      v := v + weight * Byte(bytes[offset + i]);
      weight := weight * 256;
    }
    r := Some(v);
  }

  /** The spans of the members; they tile the bytes after the header, so nothing is left uncovered. */
  method DecodeArtifact(c: Component, bytes: string, digest: Digest) returns (r: Option<seq<Span>>)
    ensures r.Some? <==> Decoded(c, bytes, digest).Some?
    ensures r.Some? ==> (forall i | 0 <= i < |r.value| :: Inside(r.value[i], bytes))
                        && Cut(r.value, bytes) == Decoded(c, bytes, digest).value && Tiles(r.value, 12, |bytes|)
  {
    hide Little, ReadMembers, Cut, Covers;
    if |bytes| < 12 || |bytes| > MAXIMUM_ARTIFACT || |bytes| != c.size || c.files == [] || |c.files| > MAXIMUM_FILES
       || bytes[..8] != MAGIC || digest(bytes) != c.sha256 { return None; }
    var offset: nat := 8;
    var count := ReadWord(bytes, offset);
    assert bytes[8..][..4] == bytes[8..12];
    if count != Some(|c.files| as nat) { return None; }
    assert Headed(c, bytes, digest);
    offset := 12;
    var spans: seq<Span> := [];
    ghost var whole := ReadMembers(c.files, bytes[12..], MAXIMUM_FILE, digest);
    PrependNone(whole);
    CoversNothing(bytes);
    assert c.files[0..] == c.files;
    for i := 0 to |c.files|
      invariant 12 <= offset <= |bytes|
      invariant Covers(spans, bytes, offset)
      invariant whole == Prepend(Cut(spans, bytes), ReadMembers(c.files[i..], bytes[offset..], MAXIMUM_FILE, digest))
    {
      var size := ReadWord(bytes, offset);
      if size.None? {
        TooShort(c.files[i..], bytes[offset..], MAXIMUM_FILE, digest);
        return None;
      }
      OneMember(Cut(spans, bytes), c.files[i..], bytes[offset..], MAXIMUM_FILE, digest);
      if size.value != c.files[i].bytes || size.value > MAXIMUM_FILE || size.value > |bytes| - (offset + 4) { return None; }
      var content := bytes[offset + 4..offset + 4 + size.value];
      assert bytes[offset..][4..4 + size.value] == content;
      if digest(content) != c.files[i].sha256 { return None; }
      assert bytes[offset..][4 + size.value..] == bytes[offset + 4 + size.value..] && c.files[i..][1..] == c.files[i + 1..];
      CoversOneMore(spans, bytes, offset, size.value);
      spans := spans + [Span(offset + 4, size.value)];
      offset := offset + 4 + size.value;
    }
    assert c.files[|c.files|..] == [];
    CoversWhole(spans, bytes, offset);
    Finished(Cut(spans, bytes), MAXIMUM_FILE, digest, bytes[offset..]);
    if offset != |bytes| { return None; }
    r := Some(spans);
  }

  lemma TooShort(fs: seq<File>, s: string, limit: nat, digest: Digest)
    requires fs != [] && |s| < 4
    ensures ReadMembers(fs, s, limit, digest).None?
  {
  }

  predicate Covers(spans: seq<Span>, bytes: string, end: nat) {
    (forall i | 0 <= i < |spans| :: Inside(spans[i], bytes)) && Tiles(spans, 12, end)
  }

  lemma CoversNothing(bytes: string)
    ensures Covers([], bytes, 12) && Cut([], bytes) == []
  {
  }

  lemma CoversOneMore(spans: seq<Span>, bytes: string, offset: nat, size: nat)
    requires Covers(spans, bytes, offset) && offset + 4 + size <= |bytes|
    ensures var more := spans + [Span(offset + 4, size)];
            Covers(more, bytes, offset + 4 + size) && Cut(more, bytes) == Cut(spans, bytes) + [bytes[offset + 4..offset + 4 + size]]
  {
    assert (spans + [Span(offset + 4, size)])[..|spans|] == spans;
  }

  lemma CoversWhole(spans: seq<Span>, bytes: string, offset: nat)
    requires Covers(spans, bytes, offset)
    ensures (forall i | 0 <= i < |spans| :: Inside(spans[i], bytes)) && Tiles(spans, 12, offset)
  {
  }

  lemma NamedOneMore(fs: seq<File>, contents: seq<string>, f: File, content: string)
    requires |fs| == |contents|
    ensures Named(fs + [f], contents + [content]) == Named(fs, contents)[f.path := content]
  {
    assert (fs + [f])[..|fs|] == fs && (contents + [content])[..|contents|] == contents;
  }

  /** A Python slice: bounds past the end are cut off. */
  function Slice(s: string, start: nat, end: nat): string {
    if start > end || start > |s| then "" else s[start..if end <= |s| then end else |s|]
  }

  /** The importer's loop; its offset may run past the end, which the last check catches. */
  method Unpack(c: Component, raw: string, digest: Digest) returns (r: Option<map<string, string>>)
    ensures r == Unpacked(c, raw, digest)
  {
    hide Little, ReadMembers, Named;
    if |raw| != c.size || digest(raw) != c.sha256 { return None; }
    if |raw| < 12 || raw[..8] != MAGIC { return None; }
    var count := ReadWord(raw, 8);
    assert raw[8..][..4] == raw[8..12];
    if count != Some(|c.files| as nat) { return None; }
    assert Headed(c, raw, digest);
    var offset: nat := 12;
    var result: map<string, string> := map[];
    ghost var contents: seq<string> := [];
    PrependNone(ReadMembers(c.files, raw[12..], |raw|, digest));
    NamedNone();
    assert c.files[0..] == c.files && c.files[..0] == [];
    for i := 0 to |c.files|
      invariant 12 <= offset && |contents| == i
      invariant offset > |raw| ==> Unpacked(c, raw, digest).None?
      invariant offset <= |raw| ==>
                  ReadMembers(c.files, raw[12..], |raw|, digest) == Prepend(contents, ReadMembers(c.files[i..], raw[offset..], |raw|, digest))
      invariant result == Named(c.files[..i], contents)
    {
      if offset + 4 > |raw| {
        if offset <= |raw| { TooShort(c.files[i..], raw[offset..], |raw|, digest); }
        return None;
      }
      var length := ReadWord(raw, offset);
      OneMember(contents, c.files[i..], raw[offset..], |raw|, digest);
      offset := offset + 4;
      var data := Slice(raw, offset, offset + length.value);
      assert offset + length.value <= |raw| ==> raw[offset - 4..][4..4 + length.value] == data;
      offset := offset + length.value;
      if |data| != c.files[i].bytes || digest(data) != c.files[i].sha256 { return None; }
      assert offset <= |raw| ==> raw[offset - length.value - 4..][4 + length.value..] == raw[offset..];
      assert c.files[i..][1..] == c.files[i + 1..] && c.files[..i + 1] == c.files[..i] + [c.files[i]];
      NamedOneMore(c.files[..i], contents, c.files[i], data);
      result := result[c.files[i].path := data];
      contents := contents + [data];
    }
    assert c.files[|c.files|..] == [] && c.files[..|c.files|] == c.files;
    if offset != |raw| {
      if offset < |raw| { Finished(contents, |raw|, digest, raw[offset..]); }
      return None;
    }
    Finished(contents, |raw|, digest, raw[offset..]);
    r := Some(result);
  }

  lemma NamedNone()
    ensures Named([], []) == map[]
  {
  }
}
