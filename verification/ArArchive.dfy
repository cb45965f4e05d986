/** The `ar` reader: the container format of a Debian package. */
module ArArchives {
  import opened Prelude
  import opened ArchiveFields

  const HEADER := 60

  /** `data` is a view of the archive: `size` bytes from `start`. */
  datatype ArMember = ArMember(name: Bytes, start: nat, size: nat)

  datatype ArError = NotAnArchive | MalformedHeader | Truncated(name: Bytes)

  const MAGIC: Bytes := [0x21, 0x3C, 0x61, 0x72, 0x63, 0x68, 0x3E, 0x0A]
  const HEADER_END: Bytes := [0x60, 0x0A]

  // ----- the reader

  function StripSlash(name: Bytes): Bytes {
    if name != [] && name[|name| - 1] == SLASH then name[..|name| - 1] else name
  }

  datatype Found = End | Bad(error: ArError) | Member(member: ArMember, next: nat)

  function FindMember(bytes: Bytes, offset: nat): (f: Found)
    ensures f.Member? ==>
      f.member.start == offset + HEADER && f.member.start + f.member.size <= |bytes|
      && f.member.start + f.member.size <= f.next
  {
    if offset + HEADER > |bytes| then End
    else
      var name := StripSlash(Trim(Field(bytes, offset, 16)));
      var size := ParseInt(Trim(Field(bytes, offset + 48, 10)), 10);
      if Field(bytes, offset + 58, 2) != HEADER_END || !IsSize(size) then Bad(MalformedHeader)
      else if offset + HEADER + size.value > |bytes| then Bad(Truncated(name))
      else Member(ArMember(name, offset + HEADER, size.value), offset + HEADER + size.value + size.value % 2)
  }

  function After(members: seq<ArMember>, rest: Result<seq<ArMember>, ArError>): Result<seq<ArMember>, ArError> {
    if rest.Ok? then Ok(members + rest.value) else rest
  }

  function MembersFrom(bytes: Bytes, offset: nat): Result<seq<ArMember>, ArError>
    decreases |bytes| - offset
  {
    match FindMember(bytes, offset)
    case End => Ok([])
    case Bad(error) => Err(error)
    case Member(member, next) => After([member], MembersFrom(bytes, next))
  }

  function Members(bytes: Bytes): Result<seq<ArMember>, ArError> {
    if Field(bytes, 0, 8) != MAGIC then Err(NotAnArchive) else MembersFrom(bytes, 8)
  }

  lemma AfterAfter(a: seq<ArMember>, b: seq<ArMember>, rest: Result<seq<ArMember>, ArError>)
    ensures After(a, After(b, rest)) == After(a + b, rest)
    ensures After([], rest) == rest
  {
    if rest.Ok? {
      assert a + (b + rest.value) == a + b + rest.value;
      assert [] + rest.value == rest.value;
    }
  }

  method ReadAr(bytes: Bytes) returns (result: Result<seq<ArMember>, ArError>)
    ensures result == Members(bytes)
  {
    hide Trim, ParseInt, StripSlash, Field;
    if Field(bytes, 0, 8) != MAGIC {
      return Err(NotAnArchive);
    }
    var members: seq<ArMember> := [];
    var offset := 8;
    AfterAfter([], [], MembersFrom(bytes, 8));
    while offset + HEADER <= |bytes|
      invariant After(members, MembersFrom(bytes, offset)) == MembersFrom(bytes, 8)
      decreases |bytes| - offset
    {
      var name := StripSlash(Trim(Field(bytes, offset, 16)));
      var size := ParseInt(Trim(Field(bytes, offset + 48, 10)), 10);
      if Field(bytes, offset + 58, 2) != HEADER_END || !IsSize(size) {
        return Err(MalformedHeader);
      }
      var start := offset + HEADER;
      if start + size.value > |bytes| {
        return Err(Truncated(name));
      }
      var member := ArMember(name, start, size.value);
      offset := start + size.value + size.value % 2;
      AfterAfter(members, [member], MembersFrom(bytes, offset));
      members := members + [member];
    }
    assert members + [] == members;
    return Ok(members);
  }

  // ----- archives

  /** A member as an archiver writes it; GNU archivers end the name with a slash. */
  datatype Rec = Rec(name: Bytes, slash: bool, digits: nat, data: Bytes)

  function NameText(r: Rec): Bytes { r.name + if r.slash then [SLASH] else [] }

  predicate RecFits(r: Rec) {
    && NUL !in r.name && |NameText(r)| <= 16 && Trimmed(NameText(r))
    && (!r.slash && r.name != [] ==> r.name[|r.name| - 1] != SLASH)
    && 1 <= r.digits <= 10 && |r.data| < Power(10, r.digits)
  }

  function Padded(text: Bytes, width: nat): (s: Bytes)
    requires |text| <= width
    ensures |s| == width
  {
    text + Fill(width - |text|, SPACE)
  }

  function RecLength(r: Rec): nat { HEADER + |r.data| + |r.data| % 2 }

  predicate IsHeader(bytes: Bytes, offset: nat, r: Rec)
    requires RecFits(r)
  {
    && Sub(bytes, offset, 16) == Padded(NameText(r), 16)
    && Sub(bytes, offset + 48, 10) == Padded(Digits(|r.data|, r.digits, 10), 10)
    && Sub(bytes, offset + 58, 2) == HEADER_END
  }

  /** From `offset` on, `bytes` holds these members and then less than one header; the last pad byte may be missing. */
  predicate Holds(bytes: Bytes, offset: nat, recs: seq<Rec>)
    decreases |recs|
  {
    if recs == [] then offset + HEADER > |bytes|
    else
      && RecFits(recs[0])
      && offset + HEADER + |recs[0].data| <= |bytes|
      && IsHeader(bytes, offset, recs[0])
      && bytes[offset + HEADER..offset + HEADER + |recs[0].data|] == recs[0].data
      && Holds(bytes, offset + RecLength(recs[0]), recs[1..])
  }

  lemma PaddedReadsBack(text: Bytes, width: nat)
    requires |text| <= width && NUL !in text && Trimmed(text)
    ensures Trim(UpToNul(Padded(text, width))) == text
  {
    var spaces := Fill(width - |text|, SPACE);
    assert NUL !in text + spaces;
    assert (text + spaces) + [] == text + spaces;
    UpToNulStops(text + spaces, []);
    assert [] + text + spaces == text + spaces;
    TrimDropsPadding([], text, spaces);
  }

  lemma SizeFits(digits: nat, size: nat)
    requires 1 <= digits <= 10 && size < Power(10, digits)
    ensures size <= MAX_SAFE
  {
    PowerGrows(10, digits, 10);
    assert Power(10, 10) == 10_000_000_000;
  }

  lemma NameReadsBack(bytes: Bytes, offset: nat, r: Rec)
    requires RecFits(r) && IsHeader(bytes, offset, r)
    ensures StripSlash(Trim(Field(bytes, offset, 16))) == r.name
  {
    PaddedReadsBack(NameText(r), 16);
    assert r.slash ==> NameText(r)[..|NameText(r)| - 1] == r.name;
  }

  lemma SizeReadsBack(bytes: Bytes, offset: nat, r: Rec)
    requires RecFits(r) && IsHeader(bytes, offset, r)
    ensures ParseInt(Trim(Field(bytes, offset + 48, 10)), 10) == Some(|r.data|) && |r.data| <= MAX_SAFE
    ensures Field(bytes, offset + 58, 2) == HEADER_END
  {
    hide ParseInt;
    PaddedReadsBack(Digits(|r.data|, r.digits, 10), 10);
    ParseIntOfDigits(|r.data|, r.digits, 10);
    SizeFits(r.digits, |r.data|);
    assert HEADER_END + [] == HEADER_END;
    UpToNulStops(HEADER_END, []);
  }

  lemma MemberReadsBack(bytes: Bytes, offset: nat, r: Rec)
    requires RecFits(r) && IsHeader(bytes, offset, r) && offset + HEADER + |r.data| <= |bytes|
    ensures FindMember(bytes, offset)
         == Member(ArMember(r.name, offset + HEADER, |r.data|), offset + RecLength(r))
  {
    hide Trim, ParseInt, Field, StripSlash, IsHeader, RecFits;
    NameReadsBack(bytes, offset, r);
    SizeReadsBack(bytes, offset, r);
  }

  /** One member for each record, with its name, viewing its data. */
  predicate ReadAs(bytes: Bytes, members: seq<ArMember>, recs: seq<Rec>) {
    && |members| == |recs|
    && forall i | 0 <= i < |recs| ::
         && members[i].name == recs[i].name && members[i].size == |recs[i].data|
         && members[i].start + members[i].size <= |bytes|
         && bytes[members[i].start..members[i].start + members[i].size] == recs[i].data
  }

  lemma {:induction false} MembersReadBack(bytes: Bytes, offset: nat, recs: seq<Rec>)
    requires Holds(bytes, offset, recs)
    ensures var read := MembersFrom(bytes, offset); read.Ok? && ReadAs(bytes, read.value, recs)
    decreases |recs|
  {
    hide FindMember, IsHeader, RecFits;
    if recs == [] {
      NothingFound(bytes, offset);
    } else {
      MemberReadsBack(bytes, offset, recs[0]);
      MembersReadBack(bytes, offset + RecLength(recs[0]), recs[1..]);
    }
  }

  lemma NothingFound(bytes: Bytes, offset: nat)
    requires offset + HEADER > |bytes|
    ensures FindMember(bytes, offset) == End
  {
  }

  /** The reader returns exactly the members of the archive, despite the even padding between them. */
  lemma ArRoundTrip(bytes: Bytes, recs: seq<Rec>)
    requires |bytes| >= 8 && bytes[..8] == MAGIC
    requires Holds(bytes, 8, recs)
    ensures var read := Members(bytes); read.Ok? && ReadAs(bytes, read.value, recs)
  {
    assert Sub(bytes, 0, 8) == MAGIC && MAGIC + [] == MAGIC;
    UpToNulStops(MAGIC, []);
    MembersReadBack(bytes, 8, recs);
  }

  // ----- archives that are refused

  /** Without its first eight bytes a file is not an archive, and with them it is never said to be none. */
  lemma NotAnArchiveIff(bytes: Bytes)
    ensures Members(bytes) == Err(NotAnArchive) <==> !(MAGIC <= bytes)
  {
    var first := Sub(bytes, 0, 8);
    if MAGIC <= bytes {
      assert first == MAGIC && MAGIC + [] == MAGIC;
      UpToNulStops(MAGIC, []);
      OtherErrors(bytes, 8);
    } else if Field(bytes, 0, 8) == MAGIC {
      UpToNulIsPrefix(first);
    }
  }

  lemma {:induction false} OtherErrors(bytes: Bytes, offset: nat)
    ensures MembersFrom(bytes, offset) != Err(NotAnArchive)
    decreases |bytes| - offset
  {
    var found := FindMember(bytes, offset);
    if found.Member? {
      OtherErrors(bytes, found.next);
    }
  }

  lemma {:induction false} UpToNulIsPrefix(s: Bytes)
    ensures UpToNul(s) <= s
  {
    if s != [] {
      UpToNulIsPrefix(s[1..]);
    }
  }

  /** From `offset` on, `bytes` holds these members, and then anything. */
  predicate Begins(bytes: Bytes, offset: nat, recs: seq<Rec>)
    decreases |recs|
  {
    recs == [] ||
    (&& RecFits(recs[0])
     && offset + HEADER + |recs[0].data| <= |bytes|
     && IsHeader(bytes, offset, recs[0])
     && bytes[offset + HEADER..offset + HEADER + |recs[0].data|] == recs[0].data
     && Begins(bytes, offset + RecLength(recs[0]), recs[1..]))
  }

  function LengthOf(recs: seq<Rec>): nat {
    if recs == [] then 0 else RecLength(recs[0]) + LengthOf(recs[1..])
  }

  /**
   What is found at an offset, on any bytes whatever: the end exactly where there is no room for a header;
   and in any other header, exactly by its last bytes and its size field, a malformed one.
   */
  lemma HeaderRefusedIff(bytes: Bytes, offset: nat)
    ensures FindMember(bytes, offset).End? <==> offset + HEADER > |bytes|
    ensures offset + HEADER <= |bytes| ==>
      (FindMember(bytes, offset) == Bad(MalformedHeader)
       <==> || bytes[offset + 58..offset + 60] != HEADER_END
            || NoSize(Trim(UpToNul(bytes[offset + 48..offset + 58])), 10))
  {
    if offset + HEADER <= |bytes| {
      var last := bytes[offset + 58..offset + 60];
      assert Sub(bytes, offset + 58, 2) == last && Sub(bytes, offset + 48, 10) == bytes[offset + 48..offset + 58];
      if last == HEADER_END {
        assert HEADER_END + [] == HEADER_END;
        UpToNulStops(HEADER_END, []);
      } else {
        UpToNulIsPrefix(last);
      }
      FieldBounded(bytes, offset + 48, 10);
      IsSizeIff(Trim(Field(bytes, offset + 48, 10)), 10);
    }
  }

  /** A member is refused as cut off, under its name, exactly if some of its data is missing. */
  lemma CutOffRefusedIff(bytes: Bytes, offset: nat, r: Rec)
    requires RecFits(r) && offset + HEADER <= |bytes| && IsHeader(bytes, offset, r)
    ensures FindMember(bytes, offset) == Bad(Truncated(r.name)) <==> offset + HEADER + |r.data| > |bytes|
  {
    hide Trim, ParseInt, Field, StripSlash, IsHeader, RecFits;
    NameReadsBack(bytes, offset, r);
    SizeReadsBack(bytes, offset, r);
  }

  /** Whatever was read before it, a member that is refused refuses the whole archive, with its own error. */
  lemma {:induction false} RefusedBehind(bytes: Bytes, offset: nat, recs: seq<Rec>)
    requires Begins(bytes, offset, recs) && FindMember(bytes, offset + LengthOf(recs)).Bad?
    ensures MembersFrom(bytes, offset) == Err(FindMember(bytes, offset + LengthOf(recs)).error)
    decreases |recs|
  {
    hide FindMember, IsHeader, RecFits;
    if recs != [] {
      MemberReadsBack(bytes, offset, recs[0]);
      RefusedBehind(bytes, offset + RecLength(recs[0]), recs[1..]);
    }
  }

  /** So an archive that breaks off inside the data of a member is never taken for a shorter one. */
  lemma CutOffArchiveRefused(bytes: Bytes, recs: seq<Rec>, r: Rec)
    requires MAGIC <= bytes && Begins(bytes, 8, recs) && RecFits(r)
    requires var at := 8 + LengthOf(recs);
      at + HEADER <= |bytes| < at + HEADER + |r.data| && IsHeader(bytes, at, r)
    ensures Members(bytes) == Err(Truncated(r.name))
  {
    CutOffRefusedIff(bytes, 8 + LengthOf(recs), r);
    RefusedBehind(bytes, 8, recs);
    NotAnArchiveIff(bytes);
  }

  // ----- views

  /** On any bytes whatever, the data views lie inside the archive, in order, and never overlap. */
  lemma {:induction false} ViewsInBoundsAndDisjoint(bytes: Bytes, offset: nat)
    requires MembersFrom(bytes, offset).Ok?
    ensures var members := MembersFrom(bytes, offset).value;
      && (forall i | 0 <= i < |members| ::
            offset + HEADER <= members[i].start && members[i].start + members[i].size <= |bytes|)
      && (forall i, j | 0 <= i < j < |members| ::
            members[i].start + members[i].size + HEADER <= members[j].start)
    decreases |bytes| - offset
  {
    hide FindMember;
    var found := FindMember(bytes, offset);
    if found.Member? {
      ViewsInBoundsAndDisjoint(bytes, found.next);
      assert MembersFrom(bytes, offset).value == [found.member] + MembersFrom(bytes, found.next).value;
    }
  }
}
