/**
 The tar reader, and a writer for the format it reads: POSIX ustar headers, the GNU `L` and `K`
 records, and pax extended headers of which the reader uses `path`.
 */
module TarArchives {
  import opened Prelude
  import opened ArchiveFields

  const BLOCK := 512

  datatype EntryType = File | Symlink | Other

  /** `data` is a view of the archive: `size` bytes from `start`. */
  datatype TarEntry = TarEntry(path: Bytes, kind: EntryType, linkTarget: Bytes, start: nat, size: nat)

  datatype TarError = Base256Number | MalformedNumber | Truncated

  // ----- the reader

  function Octal(header: Bytes, start: nat, length: nat): Result<nat, TarError>
    requires start < |header|
  {
    if header[start] >= 0x80 then Err(Base256Number)
    else
      var text := Trim(Field(header, start, length));
      if text == [] then Ok(0)
      else
        var value := ParseInt(text, 8);
        if IsSize(value) then Ok(value.value) else Err(MalformedNumber)
  }

  function Lines(data: Bytes): (lines: seq<Bytes>)
    ensures lines != []
  {
    if data == [] then [[]]
    else if data[0] == NEWLINE then [[]] + Lines(data[1..])
    else
      var rest := Lines(data[1..]);
      [[data[0]] + rest[0]] + rest[1..]
  }

  // " path="
  const PATH_KEY: Bytes := [0x20, 0x70, 0x61, 0x74, 0x68, 0x3D]

  /** `/^\d+ path=(.*)$/`: `.` matches no line terminator. */
  function PathOfLine(line: Bytes): Option<Bytes> {
    var digits := LeadingDigits(line, 10);
    var rest := LineAfter(line, |digits|);
    if digits != [] && StartsWith(rest, PATH_KEY) && RETURN !in rest && NEWLINE !in rest
    then Some(rest[|PATH_KEY|..]) else None
  }

  function LineAfter(line: Bytes, n: nat): Bytes { line[Min(n, |line|)..] }

  function FirstPath(lines: seq<Bytes>): Option<Bytes> {
    if lines == [] then None
    else if PathOfLine(lines[0]).Some? then PathOfLine(lines[0]) else FirstPath(lines[1..])
  }

  function PaxPath(data: Bytes): Option<Bytes> { FirstPath(Lines(data)) }

  predicate AllZero(header: Bytes) { forall i | 0 <= i < |header| :: header[i] == 0 }

  const USTAR: Bytes := [0x75, 0x73, 0x74, 0x61, 0x72]
  const FLAG_GNU_NAME: Byte := 0x4C
  const FLAG_GNU_LINK: Byte := 0x4B
  const FLAG_PAX: Byte := 0x78
  const FLAG_PAX_GLOBAL: Byte := 0x67

  function KindOf(flag: Byte): EntryType {
    if flag == 0x30 || flag == NUL then File else if flag == 0x32 then Symlink else Other
  }

  function RoundUp(size: nat): (r: nat)
    ensures r % BLOCK == 0 && size <= r < size + BLOCK
  {
    RoundedUp(size, (size + BLOCK - 1) / BLOCK);
    (size + BLOCK - 1) / BLOCK * BLOCK
  }

  lemma RoundedUp(size: nat, blocks: nat)
    requires blocks == (size + 511) / 512
    ensures size <= blocks * 512 < size + 512 && blocks * 512 % 512 == 0
  {
  }

  /** The text fields of a header, and its type flag. */
  datatype Labels = Labels(name: Bytes, flag: Byte, link: Bytes, magic: Bytes, prefix: Bytes)

  function LabelsOf(header: Bytes): Labels
    requires |header| == BLOCK
  {
    Labels(Field(header, 0, 100), header[156], Field(header, 157, 100), Field(header, 257, 6), Field(header, 345, 155))
  }

  /** What the reader finds at an offset: the end, an error, or a header with its data. */
  datatype Found = End | Bad(error: TarError) | Record(labels: Labels, start: nat, size: nat, next: nat)

  function FindRecord(bytes: Bytes, offset: nat): (f: Found)
    ensures f.Record? ==> f.start == offset + BLOCK && f.start + f.size <= |bytes| && f.start + f.size <= f.next
  {
    if offset + BLOCK > |bytes| then End
    else
      var header := bytes[offset..offset + BLOCK];
      if AllZero(header) then End
      else
        var size := Octal(header, 124, 12);
        if size.Err? then Bad(size.error)
        else if offset + BLOCK + size.value > |bytes| then Bad(Truncated)
        else Record(LabelsOf(header), offset + BLOCK, size.value, offset + BLOCK + RoundUp(size.value))
  }

  /** The names carried over from extension records to the next entry. */
  datatype Carried = Carried(name: Option<Bytes>, link: Option<Bytes>)

  const NOTHING := Carried(None, None)

  predicate IsExtension(flag: Byte) {
    flag == FLAG_GNU_NAME || flag == FLAG_GNU_LINK || flag == FLAG_PAX || flag == FLAG_PAX_GLOBAL
  }

  function Carry(carried: Carried, flag: Byte, data: Bytes): Carried {
    if flag == FLAG_GNU_NAME then carried.(name := Some(UpToNul(data)))
    else if flag == FLAG_GNU_LINK then carried.(link := Some(UpToNul(data)))
    else if flag == FLAG_PAX && PaxPath(data).Some? then carried.(name := PaxPath(data))
    else carried
  }

  function EntryOf(labels: Labels, carried: Carried, start: nat, size: nat): (e: TarEntry)
    ensures e.start == start && e.size == size
  {
    var prefix := if StartsWith(labels.magic, USTAR) then labels.prefix else [];
    var path :=
      if carried.name.Some? then carried.name.value
      else if prefix != [] then prefix + [SLASH] + labels.name else labels.name;
    var link := if carried.link.Some? then carried.link.value else labels.link;
    TarEntry(path, KindOf(labels.flag), link, start, size)
  }

  /** What reading from `offset` on yields; the specification of the reader's loop. */
  function EntriesFrom(bytes: Bytes, offset: nat, carried: Carried): Result<seq<TarEntry>, TarError>
    decreases |bytes| - offset
  {
    match FindRecord(bytes, offset)
    case End => Ok([])
    case Bad(error) => Err(error)
    case Record(labels, start, size, next) =>
      if IsExtension(labels.flag) then
        EntriesFrom(bytes, next, Carry(carried, labels.flag, bytes[start..start + size]))
      else
        After([EntryOf(labels, carried, start, size)], EntriesFrom(bytes, next, NOTHING))
  }

  /** Prefixes entries already read to what the rest of the archive yields. */
  function After(entries: seq<TarEntry>, rest: Result<seq<TarEntry>, TarError>): Result<seq<TarEntry>, TarError> {
    if rest.Ok? then Ok(entries + rest.value) else rest
  }

  lemma AfterAfter(a: seq<TarEntry>, b: seq<TarEntry>, rest: Result<seq<TarEntry>, TarError>)
    ensures After(a, After(b, rest)) == After(a + b, rest)
  {
    if rest.Ok? {
      assert a + (b + rest.value) == a + b + rest.value;
    }
  }

  lemma AfterNothing(rest: Result<seq<TarEntry>, TarError>)
    ensures After([], rest) == rest
  {
    if rest.Ok? {
      assert [] + rest.value == rest.value;
    }
  }

  method ReadTar(bytes: Bytes) returns (result: Result<seq<TarEntry>, TarError>)
    ensures result == EntriesFrom(bytes, 0, NOTHING)
  {
    hide Octal, Field, PaxPath, EntryOf, UpToNul, AllZero, RoundUp;
    var entries: seq<TarEntry> := [];
    var offset := 0;
    var longName: Option<Bytes> := None;
    var longLink: Option<Bytes> := None;
    AfterNothing(EntriesFrom(bytes, 0, NOTHING));
    while offset + BLOCK <= |bytes|
      invariant After(entries, EntriesFrom(bytes, offset, Carried(longName, longLink)))
             == EntriesFrom(bytes, 0, NOTHING)
      decreases |bytes| - offset
    {
      ghost var found, carried := FindRecord(bytes, offset), Carried(longName, longLink);
      var header := bytes[offset..offset + BLOCK];
      if AllZero(header) {
        break;
      }
      var size := Octal(header, 124, 12);
      if size.Err? {
        return Err(size.error);
      }
      var flag := header[156];
      var start := offset + BLOCK;
      if start + size.value > |bytes| {
        return Err(Truncated);
      }
      var data := bytes[start..start + size.value];
      offset := start + RoundUp(size.value);
      assert found == Record(LabelsOf(header), start, size.value, offset);

      if flag == FLAG_GNU_NAME {
        longName := Some(UpToNul(data));
      } else if flag == FLAG_GNU_LINK {
        longLink := Some(UpToNul(data));
      } else if flag == FLAG_PAX {
        var path := PaxPath(data);
        longName := if path.Some? then path else longName;
      } else if flag != FLAG_PAX_GLOBAL {
        var entry := EntryOf(LabelsOf(header), Carried(longName, longLink), start, size.value);
        longName, longLink := None, None;
        AfterAfter(entries, [entry], EntriesFrom(bytes, offset, NOTHING));
        entries := entries + [entry];
      }
      assert IsExtension(flag) ==> Carried(longName, longLink) == Carry(carried, flag, data);
    }
    assert entries + [] == entries;
    return Ok(entries);
  }

  /** On any bytes whatever, the data views lie inside the archive, in order, and never overlap. */
  lemma {:induction false} ViewsInBoundsAndDisjoint(bytes: Bytes, offset: nat, carried: Carried)
    requires EntriesFrom(bytes, offset, carried).Ok?
    ensures var entries := EntriesFrom(bytes, offset, carried).value;
      && (forall i | 0 <= i < |entries| ::
            offset + BLOCK <= entries[i].start && entries[i].start + entries[i].size <= |bytes|)
      && (forall i, j | 0 <= i < j < |entries| ::
            entries[i].start + entries[i].size + BLOCK <= entries[j].start)
    decreases |bytes| - offset
  {
    hide FindRecord, Carry, EntryOf;
    var found := FindRecord(bytes, offset);
    if found.Record? {
      var flag := found.labels.flag;
      if IsExtension(flag) {
        ViewsInBoundsAndDisjoint(
          bytes, found.next, Carry(carried, flag, bytes[found.start..found.start + found.size]));
      } else {
        ViewsInBoundsAndDisjoint(bytes, found.next, NOTHING);
        var rest := EntriesFrom(bytes, found.next, NOTHING).value;
        var entries := EntriesFrom(bytes, offset, carried).value;
        assert entries == [EntryOf(found.labels, carried, found.start, found.size)] + rest;
      }
    }
  }

  // ----- archives as records

  /** One record of an archive. */
  datatype Rec = Rec(labels: Labels, data: Bytes)

  /**
   A size field: leading spaces, octal digits, and then only spaces and NULs; blank for an empty record.
   */
  predicate SpelledAt(field: Bytes, size: nat, lead: nat, width: nat) {
    && lead + width <= |field| && width <= 12 && size < Power(8, width)
    && AllSpaceBytes(field[..lead])
    && field[lead..lead + width] == Digits(size, width, 8)
    && forall i | lead + width <= i < |field| :: IsBlank(field[i])
  }

  predicate AllSpaceBytes(s: Bytes) { forall i | 0 <= i < |s| :: s[i] == SPACE }

  ghost predicate IsSizeField(field: Bytes, size: nat) {
    exists lead, width :: SpelledAt(field, size, lead, width)
  }

  function RecLength(r: Rec): nat { BLOCK + RoundUp(|r.data|) }

  /** `header` is a ustar header for `r`; owner, times, checksum and padding may be anything. */
  ghost predicate IsHeader(header: Bytes, r: Rec) {
    && |header| == BLOCK && header != Fill(BLOCK, NUL)
    && IsSizeField(Sub(header, 124, 12), |r.data|) && LabelsOf(header) == r.labels
  }

  /** An archive ends in a zero block, in a fragment of a block, or just ends. */
  predicate IsTrailer(bytes: Bytes, offset: nat) {
    offset + BLOCK > |bytes| || bytes[offset..offset + BLOCK] == Fill(BLOCK, NUL)
  }

  /** From `offset` on, `bytes` holds these records and then its end; the last padding may be missing. */
  ghost predicate Holds(bytes: Bytes, offset: nat, recs: seq<Rec>)
    decreases |recs|
  {
    if recs == [] then IsTrailer(bytes, offset)
    else
      && offset + BLOCK + |recs[0].data| <= |bytes|
      && IsHeader(bytes[offset..offset + BLOCK], recs[0])
      && bytes[offset + BLOCK..offset + BLOCK + |recs[0].data|] == recs[0].data
      && Holds(bytes, offset + RecLength(recs[0]), recs[1..])
  }

  /** What the records mean, without looking at bytes. */
  function Interpret(recs: seq<Rec>, offset: nat, carried: Carried): seq<TarEntry>
    decreases |recs|
  {
    if recs == [] then []
    else
      var r, next := recs[0], offset + RecLength(recs[0]);
      if IsExtension(r.labels.flag) then Interpret(recs[1..], next, Carry(carried, r.labels.flag, r.data))
      else [EntryOf(r.labels, carried, offset + BLOCK, |r.data|)] + Interpret(recs[1..], next, NOTHING)
  }

  lemma DigitsAreText(digits: Bytes)
    requires forall i | 0 <= i < |digits| :: IsDigit(digits[i], 8)
    ensures Trimmed(digits) && NUL !in digits
  {
  }

  lemma SizeTextReadsBack(field: Bytes, size: nat, lead: nat, width: nat)
    requires SpelledAt(field, size, lead, width)
    ensures Trim(UpToNul(field)) == Digits(size, width, 8)
  {
    var spaces, digits, tail := field[..lead], Digits(size, width, 8), field[lead + width..];
    assert field == spaces + digits + tail;
    DigitsAreText(digits);
    UpToNulPasses(spaces + digits, tail);
    BlankUpToNul(tail);
    TrimDropsPadding(spaces, digits, UpToNul(tail));
  }

  lemma SizeReadsBack(header: Bytes, size: nat)
    requires |header| == BLOCK && IsSizeField(Sub(header, 124, 12), size)
    ensures Octal(header, 124, 12) == Ok(size)
  {
    hide ParseInt, Trim, UpToNul, Digits;
    var field := Sub(header, 124, 12);
    var lead, width :| SpelledAt(field, size, lead, width);
    assert header[124] == field[0];
    FirstIsSmall(field, size, lead, width);
    SizeTextReadsBack(field, size, lead, width);
    if width > 0 {
      ParseIntOfDigits(size, width, 8);
      PowerGrows(8, width, 12);
      assert Power(8, 12) == 0x10_0000_0000;
    }
  }

  lemma FirstIsSmall(field: Bytes, size: nat, lead: nat, width: nat)
    requires SpelledAt(field, size, lead, width) && field != []
    ensures field[0] < 0x80
  {
    if lead > 0 {
      assert field[0] == field[..lead][0];
    } else if width > 0 {
      assert field[0] == field[lead..lead + width][0] == Digits(size, width, 8)[0];
    }
  }

  lemma AllZeroIff(header: Bytes)
    ensures AllZero(header) <==> header == Fill(|header|, NUL)
  {
  }

  lemma RecordFound(bytes: Bytes, offset: nat, r: Rec)
    requires offset + BLOCK + |r.data| <= |bytes| && IsHeader(bytes[offset..offset + BLOCK], r)
    ensures FindRecord(bytes, offset) == Record(r.labels, offset + BLOCK, |r.data|, offset + RecLength(r))
  {
    hide Octal, IsSizeField, AllZero;
    AllZeroIff(bytes[offset..offset + BLOCK]);
    SizeReadsBack(bytes[offset..offset + BLOCK], |r.data|);
  }

  lemma NothingFound(bytes: Bytes, offset: nat)
    requires IsTrailer(bytes, offset)
    ensures FindRecord(bytes, offset) == End
  {
  }

  /** The reader recovers the meaning of the records from their bytes. */
  lemma {:induction false} RecordsReadBack(bytes: Bytes, offset: nat, recs: seq<Rec>, carried: Carried)
    requires Holds(bytes, offset, recs)
    ensures EntriesFrom(bytes, offset, carried) == Ok(Interpret(recs, offset, carried))
    decreases |recs|
  {
    hide FindRecord, Carry, EntryOf, IsHeader, RoundUp;
    if recs == [] {
      NothingFound(bytes, offset);
    } else {
      var r, next := recs[0], offset + RecLength(recs[0]);
      RecordFound(bytes, offset, r);
      var flag := r.labels.flag;
      RecordsReadBack(bytes, next, recs[1..], if IsExtension(flag) then Carry(carried, flag, r.data) else NOTHING);
    }
  }

  // ----- archives that are refused

  /** From `offset` on, `bytes` holds these records, and then anything. */
  ghost predicate Begins(bytes: Bytes, offset: nat, recs: seq<Rec>)
    decreases |recs|
  {
    recs == [] ||
    (&& offset + BLOCK + |recs[0].data| <= |bytes|
     && IsHeader(bytes[offset..offset + BLOCK], recs[0])
     && bytes[offset + BLOCK..offset + BLOCK + |recs[0].data|] == recs[0].data
     && Begins(bytes, offset + RecLength(recs[0]), recs[1..]))
  }

  /**
   What is found at an offset, on any bytes whatever: the end exactly at a zero block or less than a block;
   and in any other block, exactly by its size field, a number that is not octal digits or none at all.
   */
  lemma RecordRefusedIff(bytes: Bytes, offset: nat)
    ensures FindRecord(bytes, offset).End? <==> IsTrailer(bytes, offset)
    ensures !IsTrailer(bytes, offset) ==>
      var header, found := bytes[offset..offset + BLOCK], FindRecord(bytes, offset);
      var text := Trim(UpToNul(header[124..136]));
      && (found == Bad(Base256Number) <==> header[124] >= 0x80)
      && (found == Bad(MalformedNumber) <==> header[124] < 0x80 && text != [] && NoSize(text, 8))
  {
    if !IsTrailer(bytes, offset) {
      var header := bytes[offset..offset + BLOCK];
      assert Sub(header, 124, 12) == header[124..136];
      FieldBounded(header, 124, 12);
      IsSizeIff(Trim(Field(header, 124, 12)), 8);
    }
  }

  /** A record is refused as cut off exactly if some of its data, not just of its padding, is missing. */
  lemma CutOffRefusedIff(bytes: Bytes, offset: nat, r: Rec)
    requires offset + BLOCK <= |bytes| && IsHeader(bytes[offset..offset + BLOCK], r)
    ensures FindRecord(bytes, offset) == Bad(Truncated) <==> offset + BLOCK + |r.data| > |bytes|
  {
    hide Octal, IsSizeField, AllZero;
    AllZeroIff(bytes[offset..offset + BLOCK]);
    SizeReadsBack(bytes[offset..offset + BLOCK], |r.data|);
  }

  /** Whatever was read before it, a record that is refused refuses the whole archive, with its own error. */
  lemma {:induction false} RefusedBehind(bytes: Bytes, offset: nat, recs: seq<Rec>, carried: Carried)
    requires Begins(bytes, offset, recs) && FindRecord(bytes, offset + LengthOf(recs)).Bad?
    ensures EntriesFrom(bytes, offset, carried) == Err(FindRecord(bytes, offset + LengthOf(recs)).error)
    decreases |recs|
  {
    hide FindRecord, Carry, EntryOf, IsHeader, RoundUp;
    if recs != [] {
      var r, next := recs[0], offset + RecLength(recs[0]);
      RecordFound(bytes, offset, r);
      var flag := r.labels.flag;
      RefusedBehind(bytes, next, recs[1..], if IsExtension(flag) then Carry(carried, flag, r.data) else NOTHING);
    }
  }

  /** So an archive that breaks off inside the data of a record is never taken for a shorter one. */
  lemma CutOffArchiveRefused(bytes: Bytes, recs: seq<Rec>, r: Rec)
    requires Begins(bytes, 0, recs)
    requires var at := LengthOf(recs);
      at + BLOCK <= |bytes| < at + BLOCK + |r.data| && IsHeader(bytes[at..at + BLOCK], r)
    ensures EntriesFrom(bytes, 0, NOTHING) == Err(Truncated)
  {
    hide FindRecord, EntriesFrom, Begins, IsHeader, LengthOf;
    CutOffRefusedIff(bytes, LengthOf(recs), r);
    RefusedBehind(bytes, 0, recs, NOTHING);
  }

  // ----- pax records

  datatype PaxRecord = PaxRecord(length: Bytes, key: Bytes, value: Bytes)

  const KEY_PATH: Bytes := [0x70, 0x61, 0x74, 0x68]
  const EQUALS: Byte := 0x3D

  predicate PaxFits(r: PaxRecord) {
    && r.length != [] && (forall i | 0 <= i < |r.length| :: IsDigit(r.length[i], 10))
    && EQUALS !in r.key && NEWLINE !in r.key
  }

  /** `<length> <key>=<value>` without its newline. */
  function PaxLine(r: PaxRecord): Bytes { r.length + [SPACE] + r.key + [EQUALS] + r.value }

  function WritePax(records: seq<PaxRecord>): Bytes {
    if records == [] then [] else PaxLine(records[0]) + [NEWLINE] + WritePax(records[1..])
  }

  lemma {:induction false} LinesConcat(data: Bytes, rest: Bytes)
    ensures Lines(data + [NEWLINE] + rest) == Lines(data) + Lines(rest)
  {
    var all := data + [NEWLINE] + rest;
    if data == [] {
      assert all[1..] == rest;
    } else {
      assert all[1..] == data[1..] + [NEWLINE] + rest;
      LinesConcat(data[1..], rest);
      FirstLineGrows(data[0], Lines(data[1..]), Lines(rest));
    }
  }

  lemma FirstLineGrows(b: Byte, lines: seq<Bytes>, rest: seq<Bytes>)
    requires lines != []
    ensures [[b] + (lines + rest)[0]] + (lines + rest)[1..] == [[b] + lines[0]] + lines[1..] + rest
    ensures [[]] + (lines + rest) == [[]] + lines + rest
  {
  }

  /** Text without a newline goes on the first line of what follows. */
  lemma {:induction false} LinesAfter(text: Bytes, data: Bytes)
    requires NEWLINE !in text
    ensures Lines(text + data) == [text + Lines(data)[0]] + Lines(data)[1..]
  {
    if text == [] {
      assert text + data == data && text + Lines(data)[0] == Lines(data)[0];
    } else {
      assert (text + data)[1..] == text[1..] + data;
      LinesAfter(text[1..], data);
      assert [text[0]] + (text[1..] + Lines(data)[0]) == text + Lines(data)[0];
    }
  }

  lemma {:induction false} LinesHoldNoNewline(data: Bytes)
    ensures forall i | 0 <= i < |Lines(data)| :: NEWLINE !in Lines(data)[i]
    ensures NEWLINE !in data ==> Lines(data) == [data]
  {
    if data != [] {
      LinesHoldNoNewline(data[1..]);
      assert [data[0]] + data[1..] == data;
    }
  }

  lemma PathOfPaxLine(r: PaxRecord)
    requires PaxFits(r)
    ensures PathOfLine(PaxLine(r))
         == if r.key == KEY_PATH && RETURN !in r.value && NEWLINE !in r.value then Some(r.value) else None
  {
    var line := PaxLine(r);
    var rest := [SPACE] + r.key + [EQUALS] + r.value;
    assert line == r.length + rest;
    LeadingDigitsOf(r.length, rest, 10);
    assert LineAfter(line, |r.length|) == rest;
    if StartsWith(rest, PATH_KEY) {
      KeyIsPath(r.key, r.value);
    }
    if r.key == KEY_PATH {
      assert [SPACE] + KEY_PATH + [EQUALS] == PATH_KEY;
      assert rest == PATH_KEY + r.value;
      assert rest[|PATH_KEY|..] == r.value;
      assert RETURN !in PATH_KEY && NEWLINE !in PATH_KEY;
    }
  }

  lemma KeyIsPath(key: Bytes, value: Bytes)
    requires EQUALS !in key && PATH_KEY <= [SPACE] + key + [EQUALS] + value
    ensures key == KEY_PATH
  {
    var rest := [SPACE] + key + [EQUALS] + value;
    assert rest[..6] == PATH_KEY;
    assert rest[|key| + 1] == EQUALS && rest[5] == EQUALS;
    assert forall i | 0 <= i <= |key| :: rest[i] != EQUALS;
    assert forall i | 0 <= i < 5 :: rest[i] == PATH_KEY[i] != EQUALS;
    assert |key| == 4;
    assert key == rest[1..5] == PATH_KEY[1..5] == KEY_PATH;
  }

  // ----- what is read from a pax header

  /** The later lines of a value, which the reader takes for records of their own. */
  function LaterLines(value: Bytes): seq<Bytes> { Lines(value)[1..] }

  /** What the reader takes out of one record: its own path up to a newline, or a path in a later line. */
  function ReadFrom(r: PaxRecord): Option<Bytes> {
    if r.key == KEY_PATH && RETURN !in Lines(r.value)[0] then Some(Lines(r.value)[0])
    else FirstPath(LaterLines(r.value))
  }

  function FirstRead(records: seq<PaxRecord>): Option<Bytes> {
    if records == [] then None
    else if ReadFrom(records[0]).Some? then ReadFrom(records[0]) else FirstRead(records[1..])
  }

  ghost predicate AllPaxFit(records: seq<PaxRecord>) { forall i | 0 <= i < |records| :: PaxFits(records[i]) }

  lemma {:induction false} FirstPathConcat(a: seq<Bytes>, b: seq<Bytes>)
    ensures FirstPath(a + b) == if FirstPath(a).Some? then FirstPath(a) else FirstPath(b)
  {
    if a == [] {
      assert a + b == b;
    } else {
      assert (a + b)[1..] == a[1..] + b;
      FirstPathConcat(a[1..], b);
    }
  }

  lemma {:induction false} FirstReadConcat(a: seq<PaxRecord>, b: seq<PaxRecord>)
    ensures FirstRead(a + b) == if FirstRead(a).Some? then FirstRead(a) else FirstRead(b)
  {
    if a == [] {
      assert a + b == b;
    } else {
      assert (a + b)[1..] == a[1..] + b;
      FirstReadConcat(a[1..], b);
    }
  }

  lemma RecordIsRead(r: PaxRecord)
    requires PaxFits(r)
    ensures FirstPath(Lines(PaxLine(r))) == ReadFrom(r)
  {
    hide PathOfLine;
    var text, first := r.length + [SPACE] + r.key + [EQUALS], Lines(r.value)[0];
    assert NEWLINE !in text by {
      assert forall i | 0 <= i < |r.length| :: r.length[i] != NEWLINE;
    }
    LinesAfter(text, r.value);
    LinesHoldNoNewline(r.value);
    PathOfPaxLine(r.(value := first));
    assert PaxLine(r) == text + r.value && PaxLine(r.(value := first)) == text + first;
    assert ([text + first] + LaterLines(r.value))[1..] == LaterLines(r.value);
  }

  /** Whatever the values hold, what the reader takes out of a header is what it takes out of its records. */
  lemma {:induction false} PaxIsRead(records: seq<PaxRecord>)
    requires AllPaxFit(records)
    ensures PaxPath(WritePax(records)) == FirstRead(records)
  {
    if records != [] {
      RecordIsRead(records[0]);
      LinesConcat(PaxLine(records[0]), WritePax(records[1..]));
      FirstPathConcat(Lines(PaxLine(records[0])), Lines(WritePax(records[1..])));
      PaxIsRead(records[1..]);
    }
  }

  /**
   In a header of any records, a `path` record is read back exactly when it holds no line terminator and
   nothing else is read out of the records before it: the reader splits at newlines instead of using the
   records' lengths.
   */
  lemma PaxPathReadsBackIff(before: seq<PaxRecord>, path: PaxRecord, after: seq<PaxRecord>)
    requires AllPaxFit(before) && PaxFits(path) && AllPaxFit(after) && path.key == KEY_PATH
    ensures PaxPath(WritePax(before + ([path] + after))) == Some(path.value)
       <==> NEWLINE !in path.value && RETURN !in path.value
            && (FirstRead(before).None? || FirstRead(before) == Some(path.value))
  {
    hide ReadFrom;
    var records := before + ([path] + after);
    PaxIsRead(records);
    FirstReadConcat(before, [path] + after);
    assert ([path] + after)[1..] == after;
    if NEWLINE !in path.value && RETURN !in path.value {
      CleanPathIsRead(path);
    } else if PaxPath(WritePax(records)) == Some(path.value) {
      FirstPathHasNoTerminator(Lines(WritePax(records)));
    }
  }

  lemma CleanPathIsRead(path: PaxRecord)
    requires path.key == KEY_PATH && NEWLINE !in path.value && RETURN !in path.value
    ensures ReadFrom(path) == Some(path.value)
  {
    LinesHoldNoNewline(path.value);
  }

  /** Nothing is read out of records with other keys exactly when no later line of a value looks like a path record. */
  lemma {:induction false} NothingReadIff(records: seq<PaxRecord>)
    requires forall i | 0 <= i < |records| :: records[i].key != KEY_PATH
    ensures FirstRead(records) == None
       <==> forall i | 0 <= i < |records| ::
              forall line | line in LaterLines(records[i].value) :: PathOfLine(line) == None
  {
    hide PathOfLine, LaterLines;
    if records != [] {
      NothingReadIff(records[1..]);
      NoPathIff(LaterLines(records[0].value));
    }
  }

  lemma {:induction false} NoPathIff(lines: seq<Bytes>)
    ensures FirstPath(lines) == None <==> forall line | line in lines :: PathOfLine(line) == None
  {
    hide PathOfLine;
    if lines != [] {
      NoPathIff(lines[1..]);
    }
  }

  /** Among records without newlines the first `path` without a return is the one that is read. */
  lemma FirstCleanPathIsRead(before: seq<PaxRecord>, path: PaxRecord, after: seq<PaxRecord>)
    requires AllPaxFit(before) && PaxFits(path) && AllPaxFit(after)
    requires forall i | 0 <= i < |before| ::
      NEWLINE !in before[i].value && (before[i].key == KEY_PATH ==> RETURN in before[i].value)
    requires path.key == KEY_PATH && NEWLINE !in path.value && RETURN !in path.value
    ensures PaxPath(WritePax(before + ([path] + after))) == Some(path.value)
  {
    NothingReadOutOf(before);
    PaxPathReadsBackIff(before, path, after);
  }

  lemma {:induction false} NothingReadOutOf(records: seq<PaxRecord>)
    requires forall i | 0 <= i < |records| ::
      NEWLINE !in records[i].value && (records[i].key == KEY_PATH ==> RETURN in records[i].value)
    ensures FirstRead(records) == None
  {
    if records != [] {
      LinesHoldNoNewline(records[0].value);
      NothingReadOutOf(records[1..]);
    }
  }

  /** Of several clean `path` records the reader takes the first, where the format lets the last one override. */
  lemma RepeatedPathReadsBackIff(
    before: seq<PaxRecord>, first: PaxRecord, between: seq<PaxRecord>, last: PaxRecord, after: seq<PaxRecord>)
    requires AllPaxFit(before) && AllPaxFit(between) && AllPaxFit(after) && PaxFits(first) && PaxFits(last)
    requires FirstRead(before) == None
    requires first.key == KEY_PATH && NEWLINE !in first.value && RETURN !in first.value && last.key == KEY_PATH
    ensures PaxPath(WritePax(before + [first] + between + ([last] + after))) == Some(last.value)
       <==> first.value == last.value
  {
    hide ReadFrom;
    var records := before + [first] + between;
    FirstReadConcat(before + [first], between);
    FirstReadConcat(before, [first]);
    assert FirstRead([first]) == Some(first.value) by {
      CleanPathIsRead(first);
    }
    PaxPathReadsBackIff(records, last, after);
  }

  /** A value with a newline can hold what looks like a record, and the reader takes a path out of it. */
  lemma PathInsideValueIsRead(outer: PaxRecord, text: Bytes, inner: PaxRecord, path: PaxRecord)
    requires PaxFits(outer) && outer.key != KEY_PATH && outer.value == text + [NEWLINE] + PaxLine(inner)
    requires NEWLINE !in text && PaxFits(inner) && PaxFits(path) && path.key == KEY_PATH
    requires inner.key == KEY_PATH && NEWLINE !in inner.value && RETURN !in inner.value
    ensures PaxPath(WritePax([outer, path])) == Some(inner.value)
  {
    hide PathOfLine;
    PaxIsRead([outer, path]);
    LinesConcat(text, PaxLine(inner));
    LinesHoldNoNewline(text);
    RecordIsRead(inner);
    CleanPathIsRead(inner);
    assert ([text] + Lines(PaxLine(inner)))[1..] == Lines(PaxLine(inner));
  }

  /** `20 c=x`, a newline and `1 path=e` are one record; behind it, `9 path=a` is not what is read. */
  lemma CommentHidesPath()
    ensures var outer := PaxRecord([0x32, 0x30], [0x63], [0x78, NEWLINE, 0x31] + PATH_KEY + [0x65]);
      var path := PaxRecord([0x39], KEY_PATH, [0x61]);
      && PaxFits(outer) && PaxFits(path)
      && PaxPath(WritePax([outer, path])) == Some([0x65])
  {
    var outer := PaxRecord([0x32, 0x30], [0x63], [0x78, NEWLINE, 0x31] + PATH_KEY + [0x65]);
    var inner := PaxRecord([0x31], KEY_PATH, [0x65]);
    assert outer.value == [0x78] + [NEWLINE] + PaxLine(inner);
    PathInsideValueIsRead(outer, [0x78], inner, PaxRecord([0x39], KEY_PATH, [0x61]));
  }

  lemma {:induction false} FirstPathHasNoTerminator(lines: seq<Bytes>)
    requires FirstPath(lines).Some?
    ensures NEWLINE !in FirstPath(lines).value && RETURN !in FirstPath(lines).value
  {
    if PathOfLine(lines[0]).None? {
      FirstPathHasNoTerminator(lines[1..]);
    }
  }

  // ----- extensions

  function LengthOf(recs: seq<Rec>): nat {
    if recs == [] then 0 else RecLength(recs[0]) + LengthOf(recs[1..])
  }

  /** The effect of extension records on the names carried to the next entry. */
  function CarryAll(carried: Carried, es: seq<Rec>): Carried
    decreases |es|
  {
    if es == [] then carried else CarryAll(Carry(carried, es[0].labels.flag, es[0].data), es[1..])
  }

  predicate AllExtensions(es: seq<Rec>) { forall i | 0 <= i < |es| :: IsExtension(es[i].labels.flag) }

  lemma {:induction false} InterpretExtensions(es: seq<Rec>, rest: seq<Rec>, offset: nat, carried: Carried)
    requires AllExtensions(es)
    ensures Interpret(es + rest, offset, carried)
         == Interpret(rest, offset + LengthOf(es), CarryAll(carried, es))
    decreases |es|
  {
    if es == [] {
      assert es + rest == rest;
    } else {
      assert (es + rest)[1..] == es[1..] + rest;
      InterpretExtensions(es[1..], rest, offset + RecLength(es[0]), Carry(carried, es[0].labels.flag, es[0].data));
    }
  }

  lemma {:induction false} HoldsAfter(bytes: Bytes, offset: nat, recs: seq<Rec>, rest: seq<Rec>)
    requires Holds(bytes, offset, recs + rest)
    ensures Holds(bytes, offset + LengthOf(recs), rest)
    decreases |recs|
  {
    hide IsHeader, RecLength;
    if recs == [] {
      assert recs + rest == rest;
    } else {
      assert (recs + rest)[1..] == recs[1..] + rest;
      HoldsAfter(bytes, offset + RecLength(recs[0]), recs[1..], rest);
    }
  }

  lemma DataAt(bytes: Bytes, offset: nat, r: Rec, rest: seq<Rec>)
    requires Holds(bytes, offset, [r] + rest)
    ensures offset + BLOCK + |r.data| <= |bytes|
    ensures bytes[offset + BLOCK..offset + BLOCK + |r.data|] == r.data
    ensures Holds(bytes, offset + RecLength(r), rest)
  {
    assert ([r] + rest)[1..] == rest;
  }

  // ----- a concrete writer

  const MAX_SIZE := 0x10_0000_0000 // 8 to the power 12

  predicate RecFits(r: Rec) {
    && |r.labels.name| <= 100 && NUL !in r.labels.name
    && |r.labels.link| <= 100 && NUL !in r.labels.link
    && |r.labels.magic| <= 6 && NUL !in r.labels.magic
    && |r.labels.prefix| <= 155 && NUL !in r.labels.prefix
    && |r.data| < MAX_SIZE
  }

  /** Eleven octal digits and a NUL, or twelve digits where it takes them. */
  function SizeField(size: nat): (s: Bytes)
    ensures |s| == 12
  {
    if size < Power(8, 11) then Digits(size, 11, 8) + [NUL] else Digits(size, 12, 8)
  }

  lemma SizeFieldIsOne(size: nat)
    requires size < MAX_SIZE
    ensures IsSizeField(SizeField(size), size)
  {
    assert Power(8, 12) == MAX_SIZE;
    var width := if size < Power(8, 11) then 11 else 12;
    assert SizeField(size)[0..width] == Digits(size, width, 8);
    assert SpelledAt(SizeField(size), size, 0, width);
  }

  function WriteHeader(r: Rec): (s: Bytes)
    requires RecFits(r)
    ensures |s| == BLOCK
  {
    var l := r.labels;
    NulPadded(l.name, 100) + Fill(24, SPACE) + SizeField(|r.data|) + Fill(20, SPACE) + [l.flag]
    + NulPadded(l.link, 100) + NulPadded(l.magic, 6) + Fill(82, SPACE) + NulPadded(l.prefix, 155) + Fill(12, SPACE)
  }

  function WriteTar(recs: seq<Rec>): Bytes
    requires forall r | r in recs :: RecFits(r)
  {
    if recs == [] then Fill(2 * BLOCK, NUL)
    else
      var r := recs[0];
      WriteHeader(r) + (r.data + (Fill(RoundUp(|r.data|) - |r.data|, NUL) + WriteTar(recs[1..])))
  }

  lemma SubOfMiddle(before: Bytes, middle: Bytes, after: Bytes)
    ensures Sub(before + middle + after, |before|, |middle|) == middle
  {
  }

  lemma HeaderIsHeader(r: Rec)
    requires RecFits(r)
    ensures IsHeader(WriteHeader(r), r)
  {
    var s := WriteHeader(r);
    var l := r.labels;
    var name, link := NulPadded(l.name, 100), NulPadded(l.link, 100);
    var magic, prefix := NulPadded(l.magic, 6), NulPadded(l.prefix, 155);
    NulPaddedReads(l.name, 100);
    NulPaddedReads(l.link, 100);
    NulPaddedReads(l.magic, 6);
    NulPaddedReads(l.prefix, 155);
    var upToSize := name + Fill(24, SPACE);
    var upToLink := upToSize + SizeField(|r.data|) + Fill(20, SPACE) + [l.flag];
    var upToPrefix := upToLink + link + magic + Fill(82, SPACE);
    assert s == [] + name + s[100..];
    SubOfMiddle([], name, s[100..]);
    assert s == upToSize + SizeField(|r.data|) + s[136..];
    SubOfMiddle(upToSize, SizeField(|r.data|), s[136..]);
    assert s == upToLink + link + s[257..];
    SubOfMiddle(upToLink, link, s[257..]);
    assert s == upToLink + link + magic + s[263..];
    SubOfMiddle(upToLink + link, magic, s[263..]);
    assert s == upToPrefix + prefix + s[500..];
    SubOfMiddle(upToPrefix, prefix, s[500..]);
    assert s[156] == upToLink[156];
    SizeFieldIsOne(|r.data|);
    assert s[100] == upToSize[100] == SPACE;
  }

  lemma HoldsBehindPrefix(before: Bytes, bytes: Bytes, offset: nat, recs: seq<Rec>)
    requires Holds(bytes, offset, recs)
    ensures Holds(before + bytes, |before| + offset, recs)
    decreases |recs|
  {
    hide IsHeader, AllZero, RoundUp;
    var all := before + bytes;
    if recs == [] {
      if offset + BLOCK <= |bytes| {
        assert all[|before| + offset..|before| + offset + BLOCK] == bytes[offset..offset + BLOCK];
      }
    } else {
      var r := recs[0];
      assert all[|before| + offset..|before| + offset + BLOCK] == bytes[offset..offset + BLOCK];
      assert all[|before| + offset + BLOCK..|before| + offset + BLOCK + |r.data|]
          == bytes[offset + BLOCK..offset + BLOCK + |r.data|];
      HoldsBehindPrefix(before, bytes, offset + RecLength(r), recs[1..]);
    }
  }

  /** The writer's archives are archives, so the round trip is about something. */
  lemma {:induction false} WriterHolds(recs: seq<Rec>)
    requires forall r | r in recs :: RecFits(r)
    ensures Holds(WriteTar(recs), 0, recs)
    decreases |recs|
  {
    hide WriteHeader, IsHeader, RecFits;
    if recs != [] {
      var r := recs[0];
      assert r in recs;
      HeaderIsHeader(r);
      WriterHolds(recs[1..]);
      var padding := Fill(RoundUp(|r.data|) - |r.data|, NUL);
      var record := WriteHeader(r) + r.data + padding;
      var bytes := WriteTar(recs);
      assert bytes == record + WriteTar(recs[1..]);
      assert bytes[..BLOCK] == WriteHeader(r) && bytes[BLOCK..BLOCK + |r.data|] == r.data;
      HoldsBehindPrefix(record, WriteTar(recs[1..]), 0, recs[1..]);
    }
  }
}
