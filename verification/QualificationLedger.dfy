/**
 The evidence that a ledger's rows are unchanged: a snapshot keyed by table and position in the sorted
 row hashes, and the diff of two snapshots. Row hashing is a parameter.
 */
module QualificationLedgers {
  import opened StringSorts

  /** A row: the `name` column, which one filter looks at, and the rest. */
  datatype Row = Row(name: string, rest: string)

  /** The tables of a database; a missing file is a database without tables. */
  type Database = map<string, seq<Row>>

  type Hash = Row -> string

  const ROW_KEY := "ledger:row:"

  predicate StartsWith(s: string, prefix: string) { prefix <= s }

  predicate Included(table: string, embedded: bool) {
    && !StartsWith(table, "sqlite_stat") && table != "storage_meta"
    && (embedded ==> StartsWith(table, "change_") || table == "sqlite_sequence")
  }

  predicate Kept(table: string, row: Row, embedded: bool) {
    !embedded || table != "sqlite_sequence" || StartsWith(row.name, "change_")
  }

  function Filtered(table: string, rows: seq<Row>, embedded: bool): seq<Row> {
    if rows == [] then []
    else (if Kept(table, rows[0], embedded) then [rows[0]] else []) + Filtered(table, rows[1..], embedded)
  }

  /** The rows of a table that count as ledger content; a missing table has none. */
  function RowsOf(db: Database, table: string, embedded: bool): seq<Row> {
    if table in db && Included(table, embedded) then Filtered(table, db[table], embedded) else []
  }

  function Hashes(rows: seq<Row>, hash: Hash): (hs: seq<string>)
    ensures |hs| == |rows|
  {
    seq(|rows|, i requires 0 <= i < |rows| => hash(rows[i]))
  }

  /** The sorted row hashes of a table. */
  function Values(db: Database, table: string, embedded: bool, hash: Hash): seq<string> {
    Sort(Hashes(RowsOf(db, table, embedded), hash))
  }

  // ----- keys

  function Digit(d: nat): char
    requires d < 10
  {
    "0123456789"[d]
  }

  function Decimal(n: nat): string {
    if n < 10 then [Digit(n)] else Decimal(n / 10) + [Digit(n % 10)]
  }

  function Key(table: string, index: nat): string { ROW_KEY + table + ":" + Decimal(index) }

  lemma DigitInjective(a: nat, b: nat)
    requires a < 10 && b < 10
    ensures Digit(a) == Digit(b) ==> a == b
    ensures Digit(a) != ':'
  {
  }

  lemma {:induction false} DecimalHasNoColon(n: nat)
    ensures ':' !in Decimal(n) && Decimal(n) != []
  {
    DigitInjective(n % 10, 0);
    if n >= 10 {
      DecimalHasNoColon(n / 10);
    }
  }

  lemma {:induction false} DecimalInjective(a: nat, b: nat)
    requires Decimal(a) == Decimal(b)
    ensures a == b
  {
    var s, t := Decimal(a), Decimal(b);
    DecimalHasNoColon(a / 10);
    DecimalHasNoColon(b / 10);
    assert s[|s| - 1] == Digit(a % 10) && t[|t| - 1] == Digit(b % 10);
    DigitInjective(a % 10, b % 10);
    if a >= 10 && b >= 10 {
      assert s[..|s| - 1] == Decimal(a / 10) && t[..|t| - 1] == Decimal(b / 10);
      DecimalInjective(a / 10, b / 10);
    } else {
      assert |s| == 1 <==> a < 10;
      assert |t| == 1 <==> b < 10;
    }
  }

  /** The last colon of a string is in one place. */
  lemma LastColonSplits(t: string, d: string, u: string, e: string)
    requires ':' !in d && ':' !in e && t + ":" + d == u + ":" + e
    ensures t == u && d == e
  {
    var s := t + ":" + d;
    assert s[|t|] == ':' && s[|u|] == ':';
    assert forall k | |t| < k < |s| :: s[k] == d[k - |t| - 1];
    assert forall k | |u| < k < |s| :: s[k] == e[k - |u| - 1];
    assert |t| == |u|;
    assert t == s[..|t|] == u && d == s[|t| + 1..] == e;
  }

  /** A key names one table and one position, although table names may themselves hold colons and digits. */
  lemma KeyInjective(t: string, i: nat, u: string, j: nat)
    requires Key(t, i) == Key(u, j)
    ensures t == u && i == j
  {
    hide Decimal;
    DecimalHasNoColon(i);
    DecimalHasNoColon(j);
    assert Key(t, i)[|ROW_KEY|..] == t + ":" + Decimal(i);
    assert Key(u, j)[|ROW_KEY|..] == u + ":" + Decimal(j);
    LastColonSplits(t, Decimal(i), u, Decimal(j));
    DecimalInjective(i, j);
  }

  /** The number that a text of decimal digits spells. */
  function Spelled(s: string): int {
    if s == "" then 0 else Spelled(s[..|s| - 1]) * 10 + (s[|s| - 1] as int - '0' as int)
  }

  /** The key is the prefix, the table, and the position in decimal, without leading zeros. */
  lemma {:induction false} DecimalSpells(n: nat)
    ensures Spelled(Decimal(n)) == n
    ensures forall i | 0 <= i < |Decimal(n)| :: '0' <= Decimal(n)[i] <= '9'
    ensures Decimal(n) != "" && (Decimal(n)[0] == '0' ==> n == 0)
  {
    if n >= 10 {
      DecimalSpells(n / 10);
      assert Decimal(n)[..|Decimal(n)| - 1] == Decimal(n / 10);
    } else {
      assert Decimal(n)[..0] == "";
    }
  }

  lemma KeyIs(table: string, index: nat) returns (numeral: string)
    ensures Key(table, index) == "ledger:row:" + table + ":" + numeral && Spelled(numeral) == index
  {
    numeral := Decimal(index);
    DecimalSpells(index);
  }

  // ----- what counts

  function TableOf(db: Database, table: string): seq<Row> { if table in db then db[table] else [] }

  /**
   A row counts as ledger content in a table that is neither of planner statistics nor the storage
   bookkeeping, and in an embedded ledger just if the table is one of changes, or holds the sequence
   numbers of one.
   */
  ghost predicate Counts(table: string, row: Row, embedded: bool) {
    && !("sqlite_stat" <= table) && table != "storage_meta"
    && (!embedded || "change_" <= table || (table == "sqlite_sequence" && "change_" <= row.name))
  }

  lemma {:induction false} FilteredHolds(table: string, rows: seq<Row>, embedded: bool, row: Row)
    ensures multiset(Filtered(table, rows, embedded))[row]
         == if Kept(table, row, embedded) then multiset(rows)[row] else 0
  {
    if rows != [] {
      FilteredHolds(table, rows[1..], embedded, row);
      assert rows == [rows[0]] + rows[1..];
    }
  }

  /** Every row that counts is taken as often as it occurs, and no other row. */
  lemma RowsCounted(db: Database, table: string, embedded: bool, row: Row)
    ensures multiset(RowsOf(db, table, embedded))[row]
         == if Counts(table, row, embedded) then multiset(TableOf(db, table))[row] else 0
  {
    FilteredHolds(table, TableOf(db, table), embedded, row);
    assert "change_"[0] != "sqlite_stat"[0];
    assert "sqlite_sequence"[7] == 's' && "sqlite_stat"[9] == 'a' && "sqlite_sequence"[9] == 'q';
  }

  /** The tables of two databases hold the same rows of ledger content, in whatever order. */
  ghost predicate SameContent(p: Database, q: Database, embedded: bool) {
    forall t: string, row: Row | Counts(t, row, embedded) ::
      multiset(TableOf(p, t))[row] == multiset(TableOf(q, t))[row]
  }

  lemma SameContentIff(p: Database, q: Database, embedded: bool)
    ensures SameContent(p, q, embedded)
       <==> forall t: string :: multiset(RowsOf(p, t, embedded)) == multiset(RowsOf(q, t, embedded))
  {
    hide RowsOf, Counts;
    forall t: string, row: Row
      ensures multiset(RowsOf(p, t, embedded))[row]
           == if Counts(t, row, embedded) then multiset(TableOf(p, t))[row] else 0
      ensures multiset(RowsOf(q, t, embedded))[row]
           == if Counts(t, row, embedded) then multiset(TableOf(q, t))[row] else 0
    {
      RowsCounted(p, t, embedded, row);
      RowsCounted(q, t, embedded, row);
    }
    if SameContent(p, q, embedded) {
      forall t: string
        ensures multiset(RowsOf(p, t, embedded)) == multiset(RowsOf(q, t, embedded))
      {
        assert forall row: Row :: multiset(RowsOf(p, t, embedded))[row] == multiset(RowsOf(q, t, embedded))[row];
      }
    }
  }

  /** Of a separate ledger every table counts in full, but for the two kinds left out. */
  lemma FullContentIff(p: Database, q: Database)
    ensures SameContent(p, q, false)
       <==> forall t: string | !("sqlite_stat" <= t) && t != "storage_meta" ::
              multiset(TableOf(p, t)) == multiset(TableOf(q, t))
  {
    if SameContent(p, q, false) {
      forall t: string | !("sqlite_stat" <= t) && t != "storage_meta"
        ensures multiset(TableOf(p, t)) == multiset(TableOf(q, t))
      {
        assert forall row: Row :: Counts(t, row, false);
      }
    }
  }

  // ----- snapshots

  /** `rows` holds, under their keys, the sorted row hashes of every included table, and no other row keys. */
  ghost predicate IsSnapshot(rows: map<string, string>, db: Database, embedded: bool, hash: Hash) {
    && (forall t: string, i: nat :: i < |Values(db, t, embedded, hash)| ==>
          Key(t, i) in rows && rows[Key(t, i)] == Values(db, t, embedded, hash)[i])
    && (forall k | k in rows && StartsWith(k, ROW_KEY) ::
          exists t: string, i: nat :: i < |Values(db, t, embedded, hash)| && k == Key(t, i))
  }

  /** Two recorded maps agree on every row key. */
  ghost predicate RowsAgree(before: map<string, string>, after: map<string, string>) {
    forall k | StartsWith(k, ROW_KEY) :: (k in before <==> k in after) && (k in before ==> before[k] == after[k])
  }

  ghost predicate NoCollision(hash: Hash, a: seq<Row>, b: seq<Row>) {
    forall r, s | r in a + b && s in a + b :: hash(r) == hash(s) ==> r == s
  }

  lemma {:induction false} HashCounts(rows: seq<Row>, row: Row, hash: Hash)
    requires forall r | r in rows :: hash(r) == hash(row) ==> r == row
    ensures multiset(Hashes(rows, hash))[hash(row)] == multiset(rows)[row]
  {
    if rows != [] {
      HashCounts(rows[1..], row, hash);
      assert rows == [rows[0]] + rows[1..];
      assert Hashes(rows, hash) == [hash(rows[0])] + Hashes(rows[1..], hash);
    }
  }

  /** Hashing loses nothing about a bag of rows. */
  lemma HashesDecideRows(a: seq<Row>, b: seq<Row>, hash: Hash)
    requires NoCollision(hash, a, b)
    ensures multiset(Hashes(a, hash)) == multiset(Hashes(b, hash)) <==> multiset(a) == multiset(b)
  {
    if multiset(Hashes(a, hash)) == multiset(Hashes(b, hash)) {
      forall row | row in multiset(a) || row in multiset(b)
        ensures multiset(a)[row] == multiset(b)[row]
      {
        assert row in a + b;
        HashCounts(a, row, hash);
        HashCounts(b, row, hash);
      }
    } else if multiset(a) == multiset(b) {
      EqualBagsHashAlike(a, b, hash);
    }
  }

  lemma HashesConcat(a: seq<Row>, b: seq<Row>, hash: Hash)
    ensures Hashes(a + b, hash) == Hashes(a, hash) + Hashes(b, hash)
  {
  }

  lemma BagWithout(b: seq<Row>, i: nat, hash: Hash)
    requires i < |b|
    ensures multiset(b) == multiset(b[..i] + b[i + 1..]) + multiset{b[i]}
    ensures multiset(Hashes(b, hash)) == multiset(Hashes(b[..i] + b[i + 1..], hash)) + multiset{hash(b[i])}
  {
    assert b == b[..i] + ([b[i]] + b[i + 1..]);
    HashesConcat(b[..i], b[i + 1..], hash);
    HashesConcat(b[..i], [b[i]] + b[i + 1..], hash);
    HashesConcat([b[i]], b[i + 1..], hash);
    assert Hashes([b[i]], hash) == [hash(b[i])];
  }

  lemma {:induction false} EqualBagsHashAlike(a: seq<Row>, b: seq<Row>, hash: Hash)
    requires multiset(a) == multiset(b)
    ensures multiset(Hashes(a, hash)) == multiset(Hashes(b, hash))
    decreases |a|
  {
    hide Hashes;
    if a == [] {
      assert |multiset(b)| == 0;
      assert a == b;
    } else {
      assert a[0] in multiset(b);
      var i :| 0 <= i < |b| && b[i] == a[0];
      BagWithout(a, 0, hash);
      BagWithout(b, i, hash);
      assert a[..0] + a[1..] == a[1..];
      assert multiset(a[1..]) == multiset(a) - multiset{a[0]};
      assert multiset(b[..i] + b[i + 1..]) == multiset(b) - multiset{a[0]};
      EqualBagsHashAlike(a[1..], b[..i] + b[i + 1..], hash);
    }
  }

  lemma AgreeingValue(
    before: map<string, string>, after: map<string, string>, p: Database, q: Database, embedded: bool, hash: Hash,
    table: string, i: nat)
    requires IsSnapshot(before, p, embedded, hash) && IsSnapshot(after, q, embedded, hash) && RowsAgree(before, after)
    requires i < |Values(p, table, embedded, hash)|
    ensures i < |Values(q, table, embedded, hash)|
    ensures Values(p, table, embedded, hash)[i] == Values(q, table, embedded, hash)[i]
  {
    hide Values, Key, Included;
    var k := Key(table, i);
    KeyIsRowKey(table, i);
    assert k in before && k in after;
    var t: string, j: nat :| j < |Values(q, t, embedded, hash)| && k == Key(t, j);
    KeyInjective(table, i, t, j);
    assert after[Key(t, j)] == Values(q, t, embedded, hash)[j];
  }

  /** Snapshots that agree have the same values for every table. */
  lemma AgreeingValues(
    before: map<string, string>, after: map<string, string>, p: Database, q: Database, embedded: bool, hash: Hash,
    table: string)
    requires IsSnapshot(before, p, embedded, hash) && IsSnapshot(after, q, embedded, hash) && RowsAgree(before, after)
    ensures Values(p, table, embedded, hash) == Values(q, table, embedded, hash)
  {
    hide Values, Key, IsSnapshot, RowsAgree;
    var v, w := Values(p, table, embedded, hash), Values(q, table, embedded, hash);
    AgreeIsSymmetric(before, after);
    forall i: nat | i < |v|
      ensures i < |w| && v[i] == w[i]
    {
      AgreeingValue(before, after, p, q, embedded, hash, table, i);
    }
    if |v| > 0 {
      AgreeingValue(before, after, p, q, embedded, hash, table, |v| - 1);
    }
    if |w| > 0 {
      AgreeingValue(after, before, q, p, embedded, hash, table, |w| - 1);
    }
  }

  lemma KeyIsRowKey(table: string, index: nat)
    ensures StartsWith(Key(table, index), ROW_KEY)
  {
  }

  lemma EqualValuesAgree(
    before: map<string, string>, after: map<string, string>, p: Database, q: Database, embedded: bool, hash: Hash)
    requires IsSnapshot(before, p, embedded, hash) && IsSnapshot(after, q, embedded, hash)
    requires forall t: string :: Values(p, t, embedded, hash) == Values(q, t, embedded, hash)
    ensures RowsAgree(before, after)
  {
    hide Values, Key;
    forall k | StartsWith(k, ROW_KEY)
      ensures (k in before <==> k in after) && (k in before ==> before[k] == after[k])
    {
      if k in before {
        var t: string, i: nat :| i < |Values(p, t, embedded, hash)| && k == Key(t, i);
        assert i < |Values(q, t, embedded, hash)|;
      }
      if k in after {
        var t: string, i: nat :| i < |Values(q, t, embedded, hash)| && k == Key(t, i);
        assert i < |Values(p, t, embedded, hash)|;
      }
    }
  }

  /**
   Two snapshots taken in the same mode agree on all row keys exactly when every included table holds
   the same bag of rows, in whatever physical order, a missing table counting as an empty one.
   */
  lemma SnapshotsDecideRows(
    before: map<string, string>, after: map<string, string>, p: Database, q: Database, embedded: bool, hash: Hash)
    requires IsSnapshot(before, p, embedded, hash) && IsSnapshot(after, q, embedded, hash)
    requires forall t: string :: NoCollision(hash, RowsOf(p, t, embedded), RowsOf(q, t, embedded))
    ensures RowsAgree(before, after)
       <==> forall t: string :: multiset(RowsOf(p, t, embedded)) == multiset(RowsOf(q, t, embedded))
    ensures RowsAgree(before, after) <==> SameContent(p, q, embedded)
  {
    hide IsSnapshot, RowsAgree, RowsOf, NoCollision, SameContent;
    SameContentIff(p, q, embedded);
    forall t: string
      ensures Values(p, t, embedded, hash) == Values(q, t, embedded, hash)
         <==> multiset(RowsOf(p, t, embedded)) == multiset(RowsOf(q, t, embedded))
    {
      SortDecidesPermutation(Hashes(RowsOf(p, t, embedded), hash), Hashes(RowsOf(q, t, embedded), hash));
      HashesDecideRows(RowsOf(p, t, embedded), RowsOf(q, t, embedded), hash);
    }
    if RowsAgree(before, after) {
      forall t: string
        ensures Values(p, t, embedded, hash) == Values(q, t, embedded, hash)
      {
        AgreeingValues(before, after, p, q, embedded, hash, t);
      }
    } else if forall t: string :: multiset(RowsOf(p, t, embedded)) == multiset(RowsOf(q, t, embedded)) {
      EqualValuesAgree(before, after, p, q, embedded, hash);
    }
  }

  lemma AgreeIsSymmetric(before: map<string, string>, after: map<string, string>)
    requires RowsAgree(before, after)
    ensures RowsAgree(after, before)
  {
  }

  // ----- the loops

  /** Exactly these positions of the table are recorded, on top of `base`. */
  ghost predicate Extends(rows: map<string, string>, base: map<string, string>, table: string, values: seq<string>) {
    && (forall i: nat :: i < |values| ==> Key(table, i) in rows && rows[Key(table, i)] == values[i])
    && (forall k | k in base && !(exists i: nat :: i < |values| && k == Key(table, i)) ::
          k in rows && rows[k] == base[k])
    && (forall k | k in rows :: k in base || exists i: nat :: i < |values| && k == Key(table, i))
  }

  method AddTable(base: map<string, string>, table: string, values: seq<string>) returns (rows: map<string, string>)
    ensures Extends(rows, base, table, values)
  {
    hide Key;
    rows := base;
    for index := 0 to |values|
      invariant Extends(rows, base, table, values[..index])
    {
      ghost var before := rows;
      rows := rows[Key(table, index) := values[index]];
      OneMoreValue(before, base, table, values, index);
    }
    assert values[..|values|] == values;
  }

  lemma OneMoreValue(
    rows: map<string, string>, base: map<string, string>, table: string, values: seq<string>, index: nat)
    requires index < |values| && Extends(rows, base, table, values[..index])
    ensures Extends(rows[Key(table, index) := values[index]], base, table, values[..index + 1])
  {
    hide Key;
    var after := rows[Key(table, index) := values[index]];
    forall i: nat | i <= index
      ensures Key(table, i) in after && after[Key(table, i)] == values[..index + 1][i]
    {
      if Key(table, i) == Key(table, index) {
        KeyInjective(table, i, table, index);
      } else {
        assert i < index && values[..index][i] == values[i];
      }
    }
    forall k | k in after
      ensures k in base || exists i: nat :: i < |values[..index + 1]| && k == Key(table, i)
    {
      if k == Key(table, index) {
        assert index < |values[..index + 1]|;
      } else if k !in base {
        var i: nat :| i < |values[..index]| && k == Key(table, i);
        assert i < |values[..index + 1]|;
      }
    }
    forall k | k in base && !(exists i: nat :: i < |values[..index + 1]| && k == Key(table, i))
      ensures k in after && after[k] == base[k]
    {
      assert index < |values[..index + 1]|;
      assert |values[..index]| < |values[..index + 1]|;
    }
  }

  /** A snapshot of the part of the database listed so far. */
  ghost function Part(db: Database, listed: seq<string>): Database {
    map t | t in db && t in listed :: db[t]
  }

  /** Besides rows, a snapshot of an existing separate ledger records its version and schema, and nothing else. */
  ghost predicate RecordsMetadata(
    rows: map<string, string>, present: bool, embedded: bool, version: string, schema: string)
  {
    && (forall k | k in rows && !StartsWith(k, ROW_KEY) ::
          present && !embedded && (k == "ledger:version" || k == "ledger:schema"))
    && (present && !embedded ==>
          && "ledger:version" in rows && rows["ledger:version"] == version
          && "ledger:schema" in rows && rows["ledger:schema"] == schema)
  }

  /** `present` says whether the file exists. */
  method TakeSnapshot(
    present: bool, db: Database, order: seq<string>, embedded: bool, hash: Hash, version: string, schema: string)
    returns (rows: map<string, string>)
    requires !present ==> db == map[]
    requires forall i, j | 0 <= i < j < |order| :: order[i] != order[j]
    requires forall t :: t in order <==> t in db
    ensures IsSnapshot(rows, db, embedded, hash)
    ensures RecordsMetadata(rows, present, embedded, version, schema)
  {
    if !present {
      rows := map[];
      NoRowsYet(rows, db, embedded, hash);
      return;
    }
    hide IsSnapshot, Key, Included, Filtered, Extends, RecordsMetadata;
    rows := map[];
    if !embedded {
      rows := map["ledger:version" := version, "ledger:schema" := schema];
    }
    NoRowsYet(rows, Part(db, order[..0]), embedded, hash);
    MetadataFirst(rows, embedded, version, schema);
    for n := 0 to |order|
      invariant IsSnapshot(rows, Part(db, order[..n]), embedded, hash)
      invariant RecordsMetadata(rows, present, embedded, version, schema)
    {
      var table := order[n];
      assert table in order;
      ghost var base := rows;
      if Included(table, embedded) {
        var values := Sort(Hashes(Filtered(table, db[table], embedded), hash));
        rows := AddTable(rows, table, values);
        TableAdded(db, order, n, base, rows, values, embedded, hash);
        MetadataStays(rows, base, table, values, embedded, version, schema);
      } else {
        TableSkipped(db, order, n, rows, embedded, hash);
      }
    }
    assert order[..|order|] == order;
    assert Part(db, order) == db;
  }

  lemma NoRowsYet(rows: map<string, string>, db: Database, embedded: bool, hash: Hash)
    requires db == map[] && forall k | k in rows :: k == "ledger:version" || k == "ledger:schema"
    ensures IsSnapshot(rows, db, embedded, hash)
  {
    assert ROW_KEY[7] == 'r' && "ledger:version"[7] == 'v' && "ledger:schema"[7] == 's';
  }

  lemma MetadataFirst(rows: map<string, string>, embedded: bool, version: string, schema: string)
    requires rows == if embedded then map[] else map["ledger:version" := version, "ledger:schema" := schema]
    ensures RecordsMetadata(rows, true, embedded, version, schema)
  {
    assert "ledger:version"[7] == 'v' && "ledger:schema"[7] == 's';
  }

  lemma MetadataStays(
    rows: map<string, string>, base: map<string, string>, table: string, values: seq<string>, embedded: bool,
    version: string, schema: string)
    requires Extends(rows, base, table, values) && RecordsMetadata(base, true, embedded, version, schema)
    ensures RecordsMetadata(rows, true, embedded, version, schema)
  {
    hide Key;
    forall i: nat | i < |values|
      ensures StartsWith(Key(table, i), ROW_KEY)
    {
      KeyIsRowKey(table, i);
    }
    assert ROW_KEY[7] == 'r' && "ledger:version"[7] == 'v' && "ledger:schema"[7] == 's';
  }

  lemma ValuesOfPart(db: Database, listed: seq<string>, table: string, embedded: bool, hash: Hash)
    ensures Values(Part(db, listed), table, embedded, hash)
         == if table in listed then Values(db, table, embedded, hash) else Values(map[], table, embedded, hash)
    ensures Values(map[], table, embedded, hash) == []
  {
  }

  lemma TableSkipped(db: Database, order: seq<string>, n: nat, rows: map<string, string>, embedded: bool, hash: Hash)
    requires n < |order| && !Included(order[n], embedded)
    requires IsSnapshot(rows, Part(db, order[..n]), embedded, hash)
    ensures IsSnapshot(rows, Part(db, order[..n + 1]), embedded, hash)
  {
    hide Key;
    assert Values(db, order[n], embedded, hash) == [];
    forall t: string
      ensures Values(Part(db, order[..n + 1]), t, embedded, hash) == Values(Part(db, order[..n]), t, embedded, hash)
    {
      ListedSoFar(order, n, t);
      ValuesOfPart(db, order[..n], t, embedded, hash);
      ValuesOfPart(db, order[..n + 1], t, embedded, hash);
    }
  }

  lemma ListedSoFar(order: seq<string>, n: nat, t: string)
    requires n < |order|
    ensures t in order[..n + 1] <==> t in order[..n] || t == order[n]
  {
    assert order[..n + 1] == order[..n] + [order[n]];
  }

  lemma TableAdded(
    db: Database, order: seq<string>, n: nat, base: map<string, string>, rows: map<string, string>,
    values: seq<string>, embedded: bool, hash: Hash)
    requires n < |order| && order[n] !in order[..n] && values == Values(db, order[n], embedded, hash)
    requires IsSnapshot(base, Part(db, order[..n]), embedded, hash) && Extends(rows, base, order[n], values)
    ensures IsSnapshot(rows, Part(db, order[..n + 1]), embedded, hash)
  {
    hide Key, Values, Part;
    var table, more := order[n], Part(db, order[..n + 1]);
    forall t: string
      ensures Values(more, t, embedded, hash)
           == if t == table then values else Values(Part(db, order[..n]), t, embedded, hash)
      ensures t == table ==> Values(Part(db, order[..n]), t, embedded, hash) == []
    {
      ListedSoFar(order, n, t);
      ValuesOfPart(db, order[..n], t, embedded, hash);
      ValuesOfPart(db, order[..n + 1], t, embedded, hash);
    }
    forall t: string, i: nat | i < |Values(more, t, embedded, hash)|
      ensures Key(t, i) in rows && rows[Key(t, i)] == Values(more, t, embedded, hash)[i]
    {
      if t != table {
        assert Key(t, i) in base;
        if j: nat :| j < |values| && Key(t, i) == Key(table, j) {
          KeyInjective(t, i, table, j);
        }
      }
    }
    forall k | k in rows && StartsWith(k, ROW_KEY)
      ensures exists t: string, i: nat :: i < |Values(more, t, embedded, hash)| && k == Key(t, i)
    {
      if k in base {
        var t: string, i: nat :| i < |Values(Part(db, order[..n]), t, embedded, hash)| && k == Key(t, i);
        assert i < |Values(more, t, embedded, hash)|;
      } else {
        var i: nat :| i < |values| && k == Key(table, i);
        assert i < |Values(more, table, embedded, hash)|;
      }
    }
  }

  // ----- the diff

  datatype Differences = Differences(added: seq<string>, removed: seq<string>, changed: seq<string>)

  /** The three lists say, key by key and in order, how the maps differ. */
  ghost predicate Describes(
    d: Differences, before: map<string, string>, after: map<string, string>, keys: seq<string>)
  {
    && d.added == Select(keys, k => k !in before)
    && d.removed == Select(keys, k => k in before && k !in after)
    && d.changed == Select(keys, k => k in before && k in after && before[k] != after[k])
  }

  function Select(keys: seq<string>, wanted: string -> bool): seq<string> {
    if keys == [] then []
    else Select(keys[..|keys| - 1], wanted) + if wanted(keys[|keys| - 1]) then [keys[|keys| - 1]] else []
  }

  /** In order, and each once. */
  ghost predicate InOrder(keys: seq<string>) {
    Sorted(keys) && forall i, j | 0 <= i < j < |keys| :: keys[i] != keys[j]
  }

  lemma {:induction false} OnceEach(keys: seq<string>, k: string)
    requires forall i, j | 0 <= i < j < |keys| :: keys[i] != keys[j]
    ensures multiset(keys)[k] == if k in keys then 1 else 0
  {
    if keys != [] {
      OnceEach(keys[1..], k);
      assert keys == [keys[0]] + keys[1..];
    }
  }

  lemma TwiceIn(keys: seq<string>, i: nat, j: nat)
    requires i < j < |keys| && keys[i] == keys[j]
    ensures multiset(keys)[keys[i]] >= 2
  {
    assert keys == keys[..j] + [keys[j]] + keys[j + 1..];
    assert keys[..j][i] == keys[i] && keys[i] in multiset(keys[..j]);
  }

  lemma SortedKeysInOrder(listed: seq<string>)
    requires forall i, j | 0 <= i < j < |listed| :: listed[i] != listed[j]
    ensures InOrder(Sort(listed)) && forall k :: k in Sort(listed) <==> k in listed
  {
    hide Sort;
    var keys := Sort(listed);
    SortIsSorted(listed);
    forall k: string
      ensures k in keys <==> k in listed
    {
      assert k in keys <==> k in multiset(keys);
    }
    forall i, j | 0 <= i < j < |keys|
      ensures keys[i] != keys[j]
    {
      if keys[i] == keys[j] {
        TwiceIn(keys, i, j);
        OnceEach(listed, keys[i]);
        assert false;
      }
    }
  }

  lemma {:induction false} SelectedInOrder(keys: seq<string>, wanted: string -> bool)
    requires InOrder(keys)
    ensures InOrder(Select(keys, wanted))
  {
    if keys != [] {
      var n := |keys| - 1;
      SelectedInOrder(keys[..n], wanted);
      forall i | 0 <= i < |Select(keys[..n], wanted)|
        ensures AtMost(Select(keys[..n], wanted)[i], keys[n]) && Select(keys[..n], wanted)[i] != keys[n]
      {
        SelectedIff(keys[..n], wanted, Select(keys[..n], wanted)[i]);
      }
    }
  }

  /** `listed` are the keys of both maps in any order, as a set of them enumerates its elements. */
  method Diff(before: map<string, string>, after: map<string, string>, listed: seq<string>)
    returns (d: Differences)
    requires forall i, j | 0 <= i < j < |listed| :: listed[i] != listed[j]
    requires forall k :: k in listed <==> k in before.Keys + after.Keys
    ensures Describes(d, before, after, Sort(listed))
    ensures forall k :: k in Sort(listed) <==> k in before.Keys + after.Keys
    ensures InOrder(d.added) && InOrder(d.removed) && InOrder(d.changed)
    ensures forall k :: k in d.added <==> k in after && k !in before
    ensures forall k :: k in d.removed <==> k in before && k !in after
    ensures forall k :: k in d.changed <==> k in before && k in after && before[k] != after[k]
  {
    hide Sort, InOrder;
    var keys := Sort(listed);
    SortedKeysInOrder(listed);
    d := Differences([], [], []);
    for i := 0 to |keys|
      invariant Describes(d, before, after, keys[..i])
    {
      var key := keys[i];
      assert keys[..i + 1][..i] == keys[..i];
      if key !in before {
        d := d.(added := d.added + [key]);
      } else if key !in after {
        d := d.(removed := d.removed + [key]);
      } else if before[key] != after[key] {
        d := d.(changed := d.changed + [key]);
      }
    }
    assert keys[..|keys|] == keys;
    forall k: string
      ensures k in d.added <==> k in after && k !in before
      ensures k in d.removed <==> k in before && k !in after
      ensures k in d.changed <==> k in before && k in after && before[k] != after[k]
    {
      SelectedIff(keys, k => k !in before, k);
      SelectedIff(keys, k => k in before && k !in after, k);
      SelectedIff(keys, k => k in before && k in after && before[k] != after[k], k);
    }
    SelectedInOrder(keys, k => k !in before);
    SelectedInOrder(keys, k => k in before && k !in after);
    SelectedInOrder(keys, k => k in before && k in after && before[k] != after[k]);
  }

  lemma {:induction false} SelectedIff(keys: seq<string>, wanted: string -> bool, k: string)
    ensures k in Select(keys, wanted) <==> k in keys && wanted(k)
  {
    if keys != [] {
      SelectedIff(keys[..|keys| - 1], wanted, k);
      assert keys == keys[..|keys| - 1] + [keys[|keys| - 1]];
    }
  }

  /** No row key is reported. */
  ghost predicate NoRowReported(d: Differences) {
    forall k | k in d.added || k in d.removed || k in d.changed :: !StartsWith(k, ROW_KEY)
  }

  /** What the qualification relies on: a diff that reports no row is exactly evidence that no row changed. */
  lemma DiffDecidesRows(
    d: Differences, before: map<string, string>, after: map<string, string>, keys: seq<string>,
    p: Database, q: Database, embedded: bool, hash: Hash)
    requires (forall k :: k in keys <==> k in before.Keys + after.Keys) && Describes(d, before, after, keys)
    requires IsSnapshot(before, p, embedded, hash) && IsSnapshot(after, q, embedded, hash)
    requires forall t: string :: NoCollision(hash, RowsOf(p, t, embedded), RowsOf(q, t, embedded))
    ensures NoRowReported(d) <==> SameContent(p, q, embedded)
    ensures !embedded ==>
      (NoRowReported(d)
       <==> forall t: string | !("sqlite_stat" <= t) && t != "storage_meta" ::
              multiset(TableOf(p, t)) == multiset(TableOf(q, t)))
  {
    hide SameContent, RowsOf;
    SnapshotsDecideRows(before, after, p, q, embedded, hash);
    ReportedIff(d, before, after, keys);
    SameContentIff(p, q, embedded);
    FullContentIff(p, q);
  }

  lemma ReportedIff(d: Differences, before: map<string, string>, after: map<string, string>, keys: seq<string>)
    requires (forall k :: k in keys <==> k in before.Keys + after.Keys) && Describes(d, before, after, keys)
    ensures NoRowReported(d) <==> RowsAgree(before, after)
  {
    forall k: string
      ensures k in d.added || k in d.removed || k in d.changed
         <==> !((k in before <==> k in after) && (k in before ==> before[k] == after[k]))
    {
      SelectedIff(keys, k => k !in before, k);
      SelectedIff(keys, k => k in before && k !in after, k);
      SelectedIff(keys, k => k in before && k in after && before[k] != after[k], k);
    }
  }
}
