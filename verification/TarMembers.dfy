/**
 The files of a tar archive: what the formats say about them, what the reader makes of them, and exactly
 when the two agree. The meaning follows the pax format of POSIX and the GNU records: pax records override,
 those of the file's own headers before those of the global headers before it, of one key the last; then
 come the GNU names, and then the header.
 */
module TarMembers {
  import opened Prelude
  import opened ArchiveFields
  import opened TarArchives

  /** What an extension record says; GNU names may end with a NUL and anything after it. */
  datatype Note =
    | LongName(path: Bytes, tail: Bytes)
    | LongLink(target: Bytes, tail: Bytes)
    | Pax(records: seq<PaxRecord>)
    | Global(records: seq<PaxRecord>)

  /** A note, and what the writer puts into the other fields of its header. */
  datatype Extension = Extension(note: Note, shown: Labels)

  /** A file as an archive holds it: any extensions, in any order, and then its own header and data. */
  datatype Member = Member(extensions: seq<Extension>, header: Labels, data: Bytes)

  function ExtensionRec(x: Extension): Rec {
    match x.note
    case LongName(path, tail) => Rec(x.shown.(flag := FLAG_GNU_NAME), path + tail)
    case LongLink(target, tail) => Rec(x.shown.(flag := FLAG_GNU_LINK), target + tail)
    case Pax(records) => Rec(x.shown.(flag := FLAG_PAX), WritePax(records))
    case Global(records) => Rec(x.shown.(flag := FLAG_PAX_GLOBAL), WritePax(records))
  }

  function ExtensionRecs(xs: seq<Extension>): (recs: seq<Rec>)
    ensures |recs| == |xs|
  {
    if xs == [] then [] else [ExtensionRec(xs[0])] + ExtensionRecs(xs[1..])
  }

  function Extensions(m: Member): seq<Rec> { ExtensionRecs(m.extensions) }

  function MainRec(m: Member): Rec { Rec(m.header, m.data) }

  function RecsOf(members: seq<Member>): seq<Rec> {
    if members == [] then [] else Extensions(members[0]) + ([MainRec(members[0])] + RecsOf(members[1..]))
  }

  ghost predicate NoteFits(note: Note) {
    match note
    case LongName(path, tail) => NUL !in path && (tail == [] || tail[0] == NUL)
    case LongLink(target, tail) => NUL !in target && (tail == [] || tail[0] == NUL)
    case Pax(records) => AllPaxFit(records)
    case Global(records) => AllPaxFit(records)
  }

  ghost predicate MemberFits(m: Member) {
    !IsExtension(m.header.flag) && forall i | 0 <= i < |m.extensions| :: NoteFits(m.extensions[i].note)
  }

  // ----- what the formats say

  const KEY_LINKPATH: Bytes := [0x6C, 0x69, 0x6E, 0x6B, 0x70, 0x61, 0x74, 0x68]
  const KEY_SIZE: Bytes := [0x73, 0x69, 0x7A, 0x65]

  function Or<T>(a: Option<T>, b: Option<T>): Option<T> { if a.Some? then a else b }

  function OrElse<T>(a: Option<T>, b: T): T { if a.Some? then a.value else b }

  function ValueIn(r: PaxRecord, key: Bytes): Option<Bytes> { if r.key == key then Some(r.value) else None }

  function LastValue(records: seq<PaxRecord>, key: Bytes): Option<Bytes> {
    if records == [] then None else Or(LastValue(records[1..], key), ValueIn(records[0], key))
  }

  function FirstValue(records: seq<PaxRecord>, key: Bytes): Option<Bytes> {
    if records == [] then None else Or(ValueIn(records[0], key), FirstValue(records[1..], key))
  }

  function PaxRecords(xs: seq<Extension>): seq<PaxRecord> {
    if xs == [] then [] else (if xs[0].note.Pax? then xs[0].note.records else []) + PaxRecords(xs[1..])
  }

  function GlobalRecords(xs: seq<Extension>): seq<PaxRecord> {
    if xs == [] then [] else (if xs[0].note.Global? then xs[0].note.records else []) + GlobalRecords(xs[1..])
  }

  function LongNameIn(note: Note): Option<Bytes> { if note.LongName? then Some(note.path) else None }

  function LongLinkIn(note: Note): Option<Bytes> { if note.LongLink? then Some(note.target) else None }

  function LastLongName(xs: seq<Extension>): Option<Bytes> {
    if xs == [] then None else Or(LastLongName(xs[1..]), LongNameIn(xs[0].note))
  }

  function LastLongLink(xs: seq<Extension>): Option<Bytes> {
    if xs == [] then None else Or(LastLongLink(xs[1..]), LongLinkIn(xs[0].note))
  }

  /** The value that pax records give to a key, `globals` being all global records up to the file. */
  function Overriding(m: Member, globals: seq<PaxRecord>, key: Bytes): Option<Bytes> {
    LastValue(globals + PaxRecords(m.extensions), key)
  }

  /** Only POSIX headers have a prefix; GNU ones have times and other numbers in its place. */
  function HeaderPath(labels: Labels): Bytes {
    if labels.magic == USTAR && labels.prefix != [] then labels.prefix + [SLASH] + labels.name else labels.name
  }

  function MeantPath(m: Member, globals: seq<PaxRecord>): Bytes {
    OrElse(Overriding(m, globals, KEY_PATH), OrElse(LastLongName(m.extensions), HeaderPath(m.header)))
  }

  function OwnLink(m: Member): Bytes { OrElse(LastLongLink(m.extensions), m.header.link) }

  function MeantLink(m: Member, globals: seq<PaxRecord>): Bytes {
    OrElse(Overriding(m, globals, KEY_LINKPATH), OwnLink(m))
  }

  /** The decimal size in a pax record, or -1 if it is none. */
  function SizeIn(value: Bytes): int {
    if value != [] && forall i | 0 <= i < |value| :: IsDigit(value[i], 10) then ValueOf(value, 10) else -1
  }

  /** Devices, directories and pipes have no data, whatever their size field says. */
  predicate HasNoData(flag: Byte) { 0x33 <= flag <= 0x36 }

  function MeantSize(m: Member, globals: seq<PaxRecord>): int {
    if HasNoData(m.header.flag) then 0
    else
      var size := Overriding(m, globals, KEY_SIZE);
      if size.Some? then SizeIn(size.value) else |m.data|
  }

  /** Flag `0`, or a zero byte, is for files and flag `2` for symbolic links. */
  predicate Meant(m: Member, globals: seq<PaxRecord>, e: TarEntry) {
    && e.path == MeantPath(m, globals)
    && (e.kind.File? <==> m.header.flag == 0x30 || m.header.flag == 0)
    && (e.kind.Symlink? <==> m.header.flag == 0x32)
    && e.linkTarget == MeantLink(m, globals)
    && e.size == MeantSize(m, globals)
  }

  /** The entries are what the formats say, `globals` being the global records before the first member. */
  predicate AllMeant(entries: seq<TarEntry>, members: seq<Member>, globals: seq<PaxRecord>)
    decreases |members|
  {
    && |entries| == |members|
    && (members == [] ||
        var known := globals + GlobalRecords(members[0].extensions);
        Meant(members[0], known, entries[0]) && AllMeant(entries[1..], members[1..], known))
  }

  /** The decimal digits of a number give the number, and anything else in a `size` record gives none. */
  lemma SizeIsDecimal(n: nat, width: nat, other: Bytes)
    requires 0 < width && n < Power(10, width)
    requires other == [] || exists i :: 0 <= i < |other| && (other[i] < 0x30 || other[i] > 0x39)
    ensures SizeIn(Digits(n, width, 10)) == n && SizeIn(other) == -1
  {
    DigitsHaveValue(n, width, 10);
  }

  lemma {:induction false} NoLongName(xs: seq<Extension>)
    requires forall i | 0 <= i < |xs| :: !xs[i].note.LongName?
    ensures LastLongName(xs) == None
  {
    if xs != [] {
      NoLongName(xs[1..]);
    }
  }

  /** Of several GNU names the last is the file's. */
  lemma {:induction false} LastLongNameCounts(before: seq<Extension>, x: Extension, after: seq<Extension>)
    requires x.note.LongName? && forall i | 0 <= i < |after| :: !after[i].note.LongName?
    ensures LastLongName(before + ([x] + after)) == Some(x.note.path)
    decreases |before|
  {
    var xs := before + ([x] + after);
    if before == [] {
      NoLongName(after);
      assert xs[1..] == after;
    } else {
      LastLongNameCounts(before[1..], x, after);
      assert xs[1..] == before[1..] + ([x] + after);
    }
  }

  // ----- what the reader makes of it

  /** The name the reader takes out of one note. */
  function NameIn(note: Note): Option<Bytes> {
    match note
    case LongName(path, _) => Some(path)
    case Pax(records) => FirstRead(records)
    case _ => None
  }

  /** It keeps the last one. */
  function Taken(xs: seq<Extension>): Option<Bytes> {
    if xs == [] then None else Or(Taken(xs[1..]), NameIn(xs[0].note))
  }

  function HeaderRead(labels: Labels): Bytes {
    if StartsWith(labels.magic, USTAR) && labels.prefix != [] then labels.prefix + [SLASH] + labels.name
    else labels.name
  }

  function ReadEntry(m: Member, start: nat): TarEntry {
    TarEntry(
      OrElse(Taken(m.extensions), HeaderRead(m.header)), KindOf(m.header.flag), OwnLink(m), start, |m.data|)
  }

  lemma NoteCarries(carried: Carried, x: Extension)
    requires NoteFits(x.note)
    ensures var r := ExtensionRec(x);
      && IsExtension(r.labels.flag)
      && Carry(carried, r.labels.flag, r.data)
         == Carried(Or(NameIn(x.note), carried.name), Or(LongLinkIn(x.note), carried.link))
  {
    match x.note
    case LongName(path, tail) => UpToNulStops(path, tail);
    case LongLink(target, tail) => UpToNulStops(target, tail);
    case Pax(records) => PaxIsRead(records);
    case Global(_) =>
  }

  /** Of any extensions, in any order and mixture, the last GNU link and the last name taken reach the next entry. */
  lemma {:induction false} ExtensionsCarry(carried: Carried, xs: seq<Extension>)
    requires forall i | 0 <= i < |xs| :: NoteFits(xs[i].note)
    ensures AllExtensions(ExtensionRecs(xs))
    ensures CarryAll(carried, ExtensionRecs(xs))
         == Carried(Or(Taken(xs), carried.name), Or(LastLongLink(xs), carried.link))
    decreases |xs|
  {
    hide Carry, NoteFits, ExtensionRec, NameIn, LongLinkIn;
    if xs != [] {
      var x := xs[0];
      NoteCarries(carried, x);
      ExtensionsCarry(Carried(Or(NameIn(x.note), carried.name), Or(LongLinkIn(x.note), carried.link)), xs[1..]);
      assert ExtensionRecs(xs)[1..] == ExtensionRecs(xs[1..]);
    }
  }

  lemma MainIsRead(m: Member, start: nat)
    requires MemberFits(m)
    ensures EntryOf(MainRec(m).labels, CarryAll(NOTHING, Extensions(m)), start, |m.data|) == ReadEntry(m, start)
    ensures !IsExtension(MainRec(m).labels.flag) && AllExtensions(Extensions(m))
  {
    ExtensionsCarry(NOTHING, m.extensions);
  }

  /** One entry for each member, viewing the member's own data. */
  predicate ReadAs(bytes: Bytes, entries: seq<TarEntry>, members: seq<Member>) {
    && |entries| == |members|
    && forall i | 0 <= i < |members| ::
         && entries[i] == ReadEntry(members[i], entries[i].start)
         && entries[i].start + entries[i].size <= |bytes|
         && bytes[entries[i].start..entries[i].start + entries[i].size] == members[i].data
  }

  lemma ReadAsNext(bytes: Bytes, start: nat, m: Member, entries: seq<TarEntry>, members: seq<Member>)
    requires ReadAs(bytes, entries, members)
    requires start + |m.data| <= |bytes| && bytes[start..start + |m.data|] == m.data
    ensures ReadAs(bytes, [ReadEntry(m, start)] + entries, [m] + members)
  {
  }

  lemma NothingReadAs(bytes: Bytes, offset: nat)
    ensures ReadAs(bytes, Interpret([], offset, NOTHING), [])
  {
  }

  lemma InterpretMember(m: Member, rest: seq<Rec>, offset: nat)
    requires MemberFits(m)
    ensures MainRec(m).data == m.data
    ensures var at := offset + LengthOf(Extensions(m));
      Interpret(Extensions(m) + ([MainRec(m)] + rest), offset, NOTHING)
      == [ReadEntry(m, at + BLOCK)] + Interpret(rest, at + RecLength(MainRec(m)), NOTHING)
  {
    hide Extensions, CarryAll, ReadEntry, EntryOf, MemberFits, LengthOf, RecLength;
    var recs := [MainRec(m)] + rest;
    MainIsRead(m, offset + LengthOf(Extensions(m)) + BLOCK);
    InterpretExtensions(Extensions(m), recs, offset, NOTHING);
    assert recs[1..] == rest;
  }

  lemma {:induction false} MembersInterpreted(bytes: Bytes, offset: nat, members: seq<Member>)
    requires (forall m | m in members :: MemberFits(m)) && Holds(bytes, offset, RecsOf(members))
    ensures ReadAs(bytes, Interpret(RecsOf(members), offset, NOTHING), members)
    decreases |members|
  {
    hide Interpret, Extensions, MainRec, MemberFits, IsHeader, ReadEntry, ReadAs, LengthOf, RecLength;
    if members == [] {
      NothingReadAs(bytes, offset);
    } else {
      var m, main, others := members[0], MainRec(members[0]), RecsOf(members[1..]);
      assert m in members;
      var at := offset + LengthOf(Extensions(m));
      InterpretMember(m, others, offset);
      HoldsAfter(bytes, offset, Extensions(m), [main] + others);
      DataAt(bytes, at, main, others);
      MembersInterpreted(bytes, at + RecLength(main), members[1..]);
      ReadAsNext(bytes, at + BLOCK, m, Interpret(others, at + RecLength(main), NOTHING), members[1..]);
      assert [m] + members[1..] == members;
    }
  }

  // ----- when the two agree

  /** A header whose prefix bytes the reader takes for a prefix, though the format has none there. */
  predicate HasFalsePrefix(labels: Labels) {
    StartsWith(labels.magic, USTAR) && labels.magic != USTAR && labels.prefix != []
  }

  /**
   The name is the one that is meant. `given` is the last one that GNU and the file's own pax records give:
   it has to be the one that overrides. Without one, a global path must say what the header says anyway,
   and without that the header must not have a false prefix.
   */
  predicate NameKept(m: Member, globals: seq<PaxRecord>, given: Option<Bytes>) {
    var path := Overriding(m, globals, KEY_PATH);
    if given.Some? then given.value == OrElse(Or(path, LastLongName(m.extensions)), HeaderPath(m.header))
    else if path.Some? then path.value == HeaderRead(m.header)
    else !HasFalsePrefix(m.header)
  }

  /** No `linkpath`, of the file's own or global, says anything else than the GNU record or header. */
  predicate LinkKept(m: Member, globals: seq<PaxRecord>) {
    var link := Overriding(m, globals, KEY_LINKPATH);
    link.Some? ==> link.value == OwnLink(m)
  }

  /** No `size` record says anything else than the header, and what can have no data has none. */
  predicate SizeKept(m: Member, globals: seq<PaxRecord>) {
    var size := Overriding(m, globals, KEY_SIZE);
    if HasNoData(m.header.flag) then m.data == [] else size.Some? ==> SizeIn(size.value) == |m.data|
  }

  predicate Kept(m: Member, globals: seq<PaxRecord>) {
    NameKept(m, globals, Taken(m.extensions)) && LinkKept(m, globals) && SizeKept(m, globals)
  }

  predicate AllKept(members: seq<Member>, globals: seq<PaxRecord>)
    decreases |members|
  {
    members == [] ||
    var known := globals + GlobalRecords(members[0].extensions);
    Kept(members[0], known) && AllKept(members[1..], known)
  }

  /** A prefix is read into the path of a header exactly when there is one, except for a false prefix. */
  lemma HeaderReadIff(labels: Labels)
    ensures HeaderRead(labels) == HeaderPath(labels) <==> !HasFalsePrefix(labels)
  {
    assert |labels.prefix + [SLASH] + labels.name| > |labels.name| || labels.prefix == [];
  }

  /** Names taken out of an extension come from a GNU name or a pax header. */
  lemma {:induction false} TakenOrNot(xs: seq<Extension>)
    ensures Taken(xs) == None ==> LastLongName(xs) == None
  {
    if xs != [] {
      TakenOrNot(xs[1..]);
    }
  }

  /** One entry is what the formats say exactly when name, link and size are kept. */
  lemma EntryMeantIff(m: Member, globals: seq<PaxRecord>, start: nat)
    ensures Meant(m, globals, ReadEntry(m, start)) <==> Kept(m, globals)
  {
    hide Taken, Overriding, LastLongName;
    HeaderReadIff(m.header);
    TakenOrNot(m.extensions);
  }

  lemma {:induction false} EntriesMeantIff(entries: seq<TarEntry>, members: seq<Member>, globals: seq<PaxRecord>)
    requires |entries| == |members|
    requires forall i | 0 <= i < |members| :: entries[i] == ReadEntry(members[i], entries[i].start)
    ensures AllMeant(entries, members, globals) <==> AllKept(members, globals)
    decreases |members|
  {
    hide Meant, Kept, ReadEntry;
    if members != [] {
      var known := globals + GlobalRecords(members[0].extensions);
      EntryMeantIff(members[0], known, entries[0].start);
      EntriesMeantIff(entries[1..], members[1..], known);
    }
  }

  /**
   From any archive of ustar, GNU and pax records the reader returns one entry for each member, in order,
   viewing the member's own bytes; and the entries are what the formats say exactly when every member's
   name, link and size are kept.
   */
  lemma TarReadsAsMeantIff(bytes: Bytes, members: seq<Member>)
    requires Holds(bytes, 0, RecsOf(members)) && forall m | m in members :: MemberFits(m)
    ensures var read := EntriesFrom(bytes, 0, NOTHING);
      && read.Ok? && ReadAs(bytes, read.value, members)
      && (AllMeant(read.value, members, []) <==> AllKept(members, []))
  {
    RecordsReadBack(bytes, 0, RecsOf(members), NOTHING);
    MembersInterpreted(bytes, 0, members);
    EntriesMeantIff(EntriesFrom(bytes, 0, NOTHING).value, members, []);
  }

  /** The reader undoes the writers of its formats, as far as they use what it understands. */
  lemma TarRoundTrip(bytes: Bytes, members: seq<Member>)
    requires Holds(bytes, 0, RecsOf(members))
    requires (forall m | m in members :: MemberFits(m)) && AllKept(members, [])
    ensures var read := EntriesFrom(bytes, 0, NOTHING);
      && read.Ok? && AllMeant(read.value, members, [])
      && forall i | 0 <= i < |members| ::
           var e := read.value[i];
           e.start + e.size <= |bytes| && bytes[e.start..e.start + e.size] == members[i].data
  {
    hide AllMeant, AllKept, Holds, MemberFits, EntriesFrom, RecsOf;
    TarReadsAsMeantIff(bytes, members);
  }

  // ----- the condition without line breaks

  /** No value of a pax record holds a line break. */
  predicate PlainValues(records: seq<PaxRecord>) {
    forall i | 0 <= i < |records| :: NEWLINE !in records[i].value && RETURN !in records[i].value
  }

  predicate Plain(xs: seq<Extension>) {
    forall i | 0 <= i < |xs| :: xs[i].note.Pax? ==> PlainValues(xs[i].note.records)
  }

  /** Out of records without line breaks the reader takes the first path. */
  lemma {:induction false} PlainFirstRead(records: seq<PaxRecord>)
    requires PlainValues(records)
    ensures FirstRead(records) == FirstValue(records, KEY_PATH)
  {
    if records != [] {
      LinesHoldNoNewline(records[0].value);
      PlainFirstRead(records[1..]);
    }
  }

  /** So a pax header without line breaks is read as meant exactly when its first and last path agree. */
  lemma PlainHeaderReadsAsMeantIff(records: seq<PaxRecord>)
    requires AllPaxFit(records) && PlainValues(records)
    ensures PaxPath(WritePax(records)) == LastValue(records, KEY_PATH)
       <==> FirstValue(records, KEY_PATH) == LastValue(records, KEY_PATH)
  {
    PaxIsRead(records);
    PlainFirstRead(records);
  }

  /** The last name that a GNU record, or the first `path` of a pax header, gives. */
  function LastGiven(xs: seq<Extension>): Option<Bytes> {
    if xs == [] then None
    else
      var note := xs[0].note;
      Or(LastGiven(xs[1..]), if note.Pax? then FirstValue(note.records, KEY_PATH) else LongNameIn(note))
  }

  lemma {:induction false} PlainTaken(xs: seq<Extension>)
    requires Plain(xs)
    ensures Taken(xs) == LastGiven(xs)
  {
    if xs != [] {
      PlainTaken(xs[1..]);
      if xs[0].note.Pax? {
        PlainFirstRead(xs[0].note.records);
      }
    }
  }

  /** For members without line breaks in pax values the condition speaks only of what their records hold. */
  lemma PlainKeptIff(m: Member, globals: seq<PaxRecord>)
    requires Plain(m.extensions)
    ensures Kept(m, globals)
       <==> NameKept(m, globals, LastGiven(m.extensions)) && LinkKept(m, globals) && SizeKept(m, globals)
  {
    PlainTaken(m.extensions);
  }

  // ----- archives that are misread

  /** There is an archive of the member by itself, and what the reader returns from it is not what the formats say. */
  ghost predicate Misread(m: Member) {
    exists bytes ::
      && Holds(bytes, 0, RecsOf([m]))
      && EntriesFrom(bytes, 0, NOTHING).Ok?
      && !AllMeant(EntriesFrom(bytes, 0, NOTHING).value, [m], [])
  }

  lemma NotKeptIsMisread(m: Member)
    requires MemberFits(m) && RecFits(MainRec(m)) && forall r | r in Extensions(m) :: RecFits(r)
    requires !Kept(m, [] + GlobalRecords(m.extensions))
    ensures Misread(m)
  {
    hide Holds, WriteTar, RecFits, MemberFits, EntriesFrom, Kept, AllMeant, MainRec, Extensions;
    var recs := RecsOf([m]);
    assert [m][1..] == [] && RecsOf([]) == [];
    assert recs == Extensions(m) + ([MainRec(m)] + []);
    WriterHolds(recs);
    TarReadsAsMeantIff(WriteTar(recs), [m]);
  }

  const BLANK := Labels([], NUL, [], USTAR, [])
  const FILE := Labels([0x61], 0x30, [], USTAR, [])

  function Noted(note: Note, header: Labels, data: Bytes): Member { Member([Extension(note, BLANK)], header, data) }

  lemma OneNote(note: Note, header: Labels, data: Bytes)
    ensures var m := Noted(note, header, data);
      && Extensions(m) == [ExtensionRec(Extension(note, BLANK))]
      && PaxRecords(m.extensions) == (if note.Pax? then note.records else [])
      && GlobalRecords(m.extensions) == (if note.Global? then note.records else [])
      && Taken(m.extensions) == NameIn(note)
      && LastLongLink(m.extensions) == LongLinkIn(note)
  {
    var m := Noted(note, header, data);
    assert m.extensions[1..] == [];
  }

  lemma OneRecord(length: Bytes, key: Bytes, value: Bytes)
    requires PaxFits(PaxRecord(length, key, value)) && NEWLINE !in value && RETURN !in value
    ensures var records := [PaxRecord(length, key, value)];
      && AllPaxFit(records) && |WritePax(records)| == |length| + |key| + |value| + 3
      && (forall k :: LastValue(records, k) == if k == key then Some(value) else None)
      && FirstRead(records) == if key == KEY_PATH then Some(value) else None
  {
    var records := [PaxRecord(length, key, value)];
    assert records[1..] == [];
    PlainFirstRead(records);
  }

  /** A file behind one pax header of one record is misread if its name, link or size is not kept. */
  lemma NotedIsMisread(global: bool, length: Bytes, key: Bytes, value: Bytes, header: Labels, data: Bytes)
    requires PaxFits(PaxRecord(length, key, value)) && NEWLINE !in value && RETURN !in value
    requires |length| + |key| + |value| + 3 < MAX_SIZE
    requires !IsExtension(header.flag) && RecFits(Rec(header, data))
    requires forall records | records == [PaxRecord(length, key, value)] ::
      !Kept(Noted(if global then Global(records) else Pax(records), header, data), if global then records else [])
    ensures var records := [PaxRecord(length, key, value)];
      Misread(Noted(if global then Global(records) else Pax(records), header, data))
  {
    hide Kept, FirstRead, LastValue, WritePax, PaxFits;
    var records := [PaxRecord(length, key, value)];
    var note := if global then Global(records) else Pax(records);
    OneRecord(length, key, value);
    OneNote(note, header, data);
    assert [] + records == records;
    NotKeptIsMisread(Noted(note, header, data));
  }

  /** A pax `linkpath` overrides the header's link, and is ignored: this link to `c` is read as one to `b`. */
  lemma LinkpathIsIgnored()
    ensures Misread(
      Noted(Pax([PaxRecord([0x31, 0x34], KEY_LINKPATH, [0x63])]), Labels([0x61], 0x32, [0x62], USTAR, []), []))
  {
    hide FirstRead, LastValue, WritePax, Taken, Misread;
    var records, header := [PaxRecord([0x31, 0x34], KEY_LINKPATH, [0x63])], Labels([0x61], 0x32, [0x62], USTAR, []);
    OneRecord([0x31, 0x34], KEY_LINKPATH, [0x63]);
    OneNote(Pax(records), header, []);
    assert [] + records == records;
    assert !LinkKept(Noted(Pax(records), header, []), []);
    NotedIsMisread(false, [0x31, 0x34], KEY_LINKPATH, [0x63], header, []);
  }

  /** A global `path` applies to the files after it, and is ignored: this file is read as `a` instead of `c`. */
  lemma GlobalPathIsIgnored()
    ensures Misread(Noted(Global([PaxRecord([0x39], KEY_PATH, [0x63])]), FILE, []))
  {
    hide FirstRead, LastValue, WritePax, Taken, Misread, LastLongName, LastLongLink, AllPaxFit;
    var records := [PaxRecord([0x39], KEY_PATH, [0x63])];
    OneRecord([0x39], KEY_PATH, [0x63]);
    OneNote(Global(records), FILE, []);
    assert records + [] == records;
    assert !NameKept(Noted(Global(records), FILE, []), records, None);
    NotedIsMisread(true, [0x39], KEY_PATH, [0x63], FILE, []);
  }

  /** A `size` record overrides the size field, and is ignored: this file is read as one byte instead of two. */
  lemma SizeRecordIsIgnored()
    ensures Misread(Noted(Pax([PaxRecord([0x39], KEY_SIZE, [0x32])]), FILE, [0x78]))
  {
    hide FirstRead, LastValue, WritePax, Taken, Misread;
    var records := [PaxRecord([0x39], KEY_SIZE, [0x32])];
    OneRecord([0x39], KEY_SIZE, [0x32]);
    OneNote(Pax(records), FILE, [0x78]);
    assert [] + records == records;
    assert [0x32][..0] == [] && SizeIn([0x32]) == 2;
    assert !SizeKept(Noted(Pax(records), FILE, [0x78]), []);
    NotedIsMisread(false, [0x39], KEY_SIZE, [0x32], FILE, [0x78]);
  }

  /** A GNU header has no prefix, but a time in its place: this file `a` is read as `t/a`. */
  lemma GnuTimeIsPrefix()
    ensures Misread(Member([], Labels([0x61], 0x30, [], USTAR + [SPACE], [0x74]), []))
  {
    var m := Member([], Labels([0x61], 0x30, [], USTAR + [SPACE], [0x74]), []);
    assert !NameKept(m, [] + [], None);
    NotKeptIsMisread(m);
  }

  /** The size of a directory is not that of data, but is read so. */
  lemma DirectorySizeIsRead()
    ensures Misread(Member([], Labels([0x61], 0x35, [], USTAR, []), [0x78]))
  {
    var m := Member([], Labels([0x61], 0x35, [], USTAR, []), [0x78]);
    assert !SizeKept(m, [] + []);
    NotKeptIsMisread(m);
  }
}
