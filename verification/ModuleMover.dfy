/**
 The module mover: which file a relative specifier names, how a specifier is rewritten when files
 move, and the renames themselves.
 */
module ModuleMovers {
  import opened Prelude
  import opened PathAlgebra

  // ----- names and suffixes

  const KINDS := 6

  /** The script suffixes a specifier may be written with. */
  function WrittenSuffix(kind: nat): string {
    match kind case 0 => ".js" case 1 => ".cjs" case 2 => ".mjs" case 3 => ".jsx" case 4 => ".cjsx" case _ => ".mjsx"
  }

  /** The suffixes of the files they stand for. */
  function StoredSuffix(kind: nat): string {
    match kind case 0 => ".ts" case 1 => ".cts" case 2 => ".mts" case 3 => ".tsx" case 4 => ".ctsx" case _ => ".mtsx"
  }

  predicate EndsWith(s: string, suffix: string) {
    |suffix| <= |s| && s[|s| - |suffix|..] == suffix
  }

  /** Which written suffix ends the name, or `KINDS`. */
  function WrittenKind(name: string): (kind: nat)
    ensures kind <= KINDS
    ensures kind < KINDS ==> EndsWith(name, WrittenSuffix(kind))
    ensures kind == KINDS ==> forall k | 0 <= k < KINDS :: !EndsWith(name, WrittenSuffix(k))
  {
    if EndsWith(name, WrittenSuffix(0)) then 0
    else if EndsWith(name, WrittenSuffix(1)) then 1
    else if EndsWith(name, WrittenSuffix(2)) then 2
    else if EndsWith(name, WrittenSuffix(3)) then 3
    else if EndsWith(name, WrittenSuffix(4)) then 4
    else if EndsWith(name, WrittenSuffix(5)) then 5
    else KINDS
  }

  predicate LooksStored(name: string) {
    exists kind | 0 <= kind < KINDS :: EndsWith(name, StoredSuffix(kind))
  }

  function Last(p: Path): Name { if p == [] then "" else p[|p| - 1] }

  function Dir(p: Path): Path { if p == [] then [] else p[..|p| - 1] }

  /** The path whose string is `p`'s with `drop` characters off its end and `suffix` put there. */
  function WithEnding(p: Path, drop: nat, suffix: string): Path
    requires drop <= |Last(p)|
  {
    Dir(p) + [Last(p)[..|Last(p)| - drop] + suffix]
  }

  // ----- what a specifier names

  /**
   A file a specifier may stand for: taking `strip` off it and putting `restore` back gives the specifier's
   own path.
   */
  datatype Candidate = Candidate(file: Path, strip: string, restore: string)

  function Candidates(base: Path): (cs: seq<Candidate>)
    ensures cs != []
  {
    var kind := WrittenKind(Last(base));
    var itself := Candidate(base, "", "");
    if kind < KINDS then
      [Candidate(WithEnding(base, |WrittenSuffix(kind)|, StoredSuffix(kind)), StoredSuffix(kind), WrittenSuffix(kind)),
       itself]
    else if LooksStored(Last(base)) then [itself]
    else [Candidate(WithEnding(base, 0, ".ts"), ".ts", ""), Candidate(WithEnding(base, 0, ".tsx"), ".tsx", ""), itself]
  }

  /** The first candidate among `files`. */
  function FirstIn(cs: seq<Candidate>, files: set<Path>): (c: Option<Candidate>)
    ensures c.Some? ==> c.value in cs && c.value.file in files
    ensures c.None? ==> forall d | d in cs :: d.file !in files
  {
    if cs == [] then None
    else if cs[0].file in files then Some(cs[0])
    else FirstIn(cs[1..], files)
  }

  /**
   The file a specifier names, for a resolver that tries the candidates in order. A specifier that is
   not a relative one names a package, and so no file of the tree.
   */
  function Meaning(dir: Path, specifier: string, files: set<Path>): Option<Path> {
    var c := FirstIn(Candidates(Resolve(dir, specifier)), files);
    if Recognised(specifier) && c.Some? then Some(c.value.file) else None
  }

  /** At most one candidate exists. */
  ghost predicate Unambiguous(base: Path, files: set<Path>) {
    forall c, d | c in Candidates(base) && d in Candidates(base) && c.file in files && d.file in files ::
      c.file == d.file
  }

  // ----- moving and rewriting

  type Moves = map<Path, Path>

  /** What the mover checks before it changes anything. */
  ghost predicate Checked(moves: Moves, files: set<Path>) {
    && moves.Keys <= files
    && moves.Values !! files
    && forall a, b | a in moves && b in moves && a != b :: moves[a] != moves[b]
  }

  function Image(moves: Moves, p: Path): Path { if p in moves then moves[p] else p }

  function Images(moves: Moves, files: set<Path>): set<Path> { set f | f in files :: Image(moves, f) }

  /** The mover's own choice: a candidate that moves, else one that exists, else the path as written. */
  function Chosen(base: Path, moves: Moves, files: set<Path>): Candidate {
    var moved := FirstIn(Candidates(base), moves.Keys);
    var found := FirstIn(Candidates(base), files);
    if moved.Some? then moved.value else if found.Some? then found.value else Candidate(base, "", "")
  }

  function Written(destination: Path, c: Candidate): Path
    requires |c.strip| <= |Last(destination)|
  {
    if c.strip == "" then destination else WithEnding(destination, |c.strip|, c.restore)
  }

  /** What becomes of one specifier of `file`; what the pattern does not match is left alone. */
  function Rewritten(file: Path, specifier: string, moves: Moves, files: set<Path>): string
    requires var c := Chosen(Resolve(Dir(file), specifier), moves, files);
      |c.strip| <= |Last(Image(moves, c.file))|
  {
    var oldDir, newDir := Dir(file), Dir(Image(moves, file));
    var c := Chosen(Resolve(oldDir, specifier), moves, files);
    if !Recognised(specifier) || (c.file !in moves && oldDir == newDir) then specifier
    else RelativeSpecifier(newDir, Written(Image(moves, c.file), c))
  }

  /** The specifier stays as it is, or what it is rewritten to can be reached by a relative one. */
  predicate StaysRelative(file: Path, specifier: string, moves: Moves, files: set<Path>) {
    var newDir, c := Dir(Image(moves, file)), Chosen(Resolve(Dir(file), specifier), moves, files);
    || (c.file !in moves && Dir(file) == newDir)
    || (|c.strip| <= |Last(Image(moves, c.file))| && Reaches(newDir, Written(Image(moves, c.file), c)))
  }

  /** The name is `stem` and then the suffix. */
  ghost predicate IsStem(stem: string, suffix: string, name: string) { name == stem + suffix && IsName(stem) }

  /**
   A move keeps a script's kind when the new name has the suffix of the old one on a stem that does
   not itself look like a script: `a.ts` to `b.ts`, not to `b.mts` or `b.js.ts`.
   */
  ghost predicate KeepsKind(from: Path, to: Path) {
    && IsPath(to) && to != []
    && forall kind | 0 <= kind < KINDS && EndsWith(Last(from), StoredSuffix(kind)) ::
         exists stem :: IsStem(stem, StoredSuffix(kind), Last(to)) && WrittenKind(stem) == KINDS && !LooksStored(stem)
  }

  // ----- facts about suffixes

  lemma SuffixFacts(kind: nat)
    requires kind < KINDS
    ensures |StoredSuffix(kind)| >= 3 && |WrittenSuffix(kind)| >= 3
    ensures forall i | 0 <= i < |WrittenSuffix(kind)| :: WrittenSuffix(kind)[i] != '/'
    ensures StoredSuffix(0) == ".ts" && StoredSuffix(3) == ".tsx"
  {
    if kind == 0 {
    } else if kind == 1 {
    } else if kind == 2 {
    } else if kind == 3 {
    } else if kind == 4 {
    } else {
    }
  }

  /** No name ends with two of the written suffixes. */
  lemma WrittenKindUnique(stem: string, kind: nat)
    requires kind < KINDS
    ensures WrittenKind(stem + WrittenSuffix(kind)) == kind
  {
    var name := stem + WrittenSuffix(kind);
    var other := WrittenKind(name);
    assert EndsWith(name, WrittenSuffix(kind));
    assert other < KINDS;
    SuffixFacts(kind);
    SuffixFacts(other);
    SameEnd(name, WrittenSuffix(kind), WrittenSuffix(other));
    SameKind(kind, other);
  }

  lemma SameKind(kind: nat, other: nat)
    requires kind < KINDS && other < KINDS
    requires var a, b := WrittenSuffix(kind), WrittenSuffix(other);
      && |a| >= 3 && |b| >= 3
      && a[|a| - 1] == b[|b| - 1] && a[|a| - 2] == b[|b| - 2] && a[|a| - 3] == b[|b| - 3]
      && (|a| >= 4 && |b| >= 4 ==> a[|a| - 4] == b[|b| - 4])
    ensures kind == other
  {
    if kind == 0 {
    } else if kind == 1 {
    } else if kind == 2 {
    } else if kind == 3 {
    } else if kind == 4 {
    } else {
    }
  }

  lemma SameEnd(name: string, a: string, b: string)
    requires EndsWith(name, a) && EndsWith(name, b) && |a| >= 3 && |b| >= 3
    ensures a[|a| - 1] == b[|b| - 1] && a[|a| - 2] == b[|b| - 2] && a[|a| - 3] == b[|b| - 3]
    ensures |a| >= 4 && |b| >= 4 ==> a[|a| - 4] == b[|b| - 4]
    ensures |a| >= 5 && |b| >= 5 ==> a[|a| - 5] == b[|b| - 5]
  {
    var n := |name|;
    assert a[|a| - 1] == name[n - 1] == b[|b| - 1];
    assert a[|a| - 2] == name[n - 2] == b[|b| - 2];
    assert a[|a| - 3] == name[n - 3] == b[|b| - 3];
    assert |a| >= 4 ==> a[|a| - 4] == name[n - 4];
    assert |b| >= 4 ==> b[|b| - 4] == name[n - 4];
    assert |a| >= 5 ==> a[|a| - 5] == name[n - 5];
    assert |b| >= 5 ==> b[|b| - 5] == name[n - 5];
  }

  lemma EndingSwapped(p: Path, stem: string, from: string, to: string)
    requires p != [] && Last(p) == stem + from
    ensures WithEnding(p, |from|, to) == Dir(p) + [stem + to]
    ensures Last(WithEnding(p, |from|, to)) == stem + to && Dir(WithEnding(p, |from|, to)) == Dir(p)
    ensures p == Dir(p) + [stem + from]
  {
    assert (stem + from)[..|stem + from| - |from|] == stem;
  }

  // ----- which files a specifier may stand for

  const LEADS: set<string> := {"", "c", "m"}
  const TAILS: set<string> := {"", "x"}

  /** The name is a stem and then a script suffix: a dot, perhaps `c` or `m`, the language, perhaps `x`. */
  ghost predicate Spells(name: string, stem: string, lead: string, language: string, tail: string) {
    lead in LEADS && tail in TAILS && name == stem + ("." + lead + language + tail)
  }

  lemma KindOf(lead: string, tail: string) returns (kind: nat)
    requires lead in LEADS && tail in TAILS
    ensures kind == (if lead == "" then 0 else if lead == "c" then 1 else 2) + (if tail == "" then 0 else 3)
    ensures WrittenSuffix(kind) == "." + lead + "js" + tail && StoredSuffix(kind) == "." + lead + "ts" + tail
  {
    kind := (if lead == "" then 0 else if lead == "c" then 1 else 2) + if tail == "" then 0 else 3;
  }

  lemma SpellingOf(kind: nat) returns (lead: string, tail: string)
    requires kind < KINDS
    ensures lead in LEADS && tail in TAILS
    ensures WrittenSuffix(kind) == "." + lead + "js" + tail && StoredSuffix(kind) == "." + lead + "ts" + tail
  {
    lead := if kind % 3 == 0 then "" else if kind % 3 == 1 then "c" else "m";
    tail := if kind < 3 then "" else "x";
    var other := KindOf(lead, tail);
    assert other == kind;
  }

  lemma EndsWithIff(name: string, suffix: string)
    ensures EndsWith(name, suffix) <==> exists stem :: name == stem + suffix
  {
    if EndsWith(name, suffix) {
      assert name == name[..|name| - |suffix|] + suffix;
    }
    if stem :| name == stem + suffix {
      assert name[|name| - |suffix|..] == suffix;
    }
  }

  /** The names that are read as scripts are those the mover's pattern matches. */
  lemma ScriptsRecognisedIff(name: string)
    ensures WrittenKind(name) < KINDS <==> exists stem, lead, tail :: Spells(name, stem, lead, "js", tail)
  {
    hide WrittenSuffix, StoredSuffix, EndsWith;
    if WrittenKind(name) < KINDS {
      var lead, tail := SpellingOf(WrittenKind(name));
      EndsWithIff(name, WrittenSuffix(WrittenKind(name)));
      var stem :| name == stem + WrittenSuffix(WrittenKind(name));
      assert Spells(name, stem, lead, "js", tail);
    } else if stem, lead, tail :| Spells(name, stem, lead, "js", tail) {
      var kind := KindOf(lead, tail);
      EndsWithIff(name, WrittenSuffix(kind));
      assert false;
    }
  }

  /** And so are those that look stored. */
  lemma StoredRecognisedIff(name: string)
    ensures LooksStored(name) <==> exists stem, lead, tail :: Spells(name, stem, lead, "ts", tail)
  {
    hide WrittenSuffix, StoredSuffix, EndsWith;
    if LooksStored(name) {
      var kind :| 0 <= kind < KINDS && EndsWith(name, StoredSuffix(kind));
      var lead, tail := SpellingOf(kind);
      EndsWithIff(name, StoredSuffix(kind));
      var stem :| name == stem + StoredSuffix(kind);
      assert Spells(name, stem, lead, "ts", tail);
    } else if stem, lead, tail :| Spells(name, stem, lead, "ts", tail) {
      var kind := KindOf(lead, tail);
      EndsWithIff(name, StoredSuffix(kind));
      assert false;
    }
  }

  /** `x.mjs` may be `x.mts` or itself, and so for every lead and tail: the kind is never changed. */
  lemma ScriptCandidates(dir: Path, stem: string, lead: string, tail: string)
    requires lead in LEADS && tail in TAILS
    ensures var (stored, written) := ("." + lead + "ts" + tail, "." + lead + "js" + tail);
      var base := dir + [stem + written];
      Candidates(base) == [Candidate(dir + [stem + stored], stored, written), Candidate(base, "", "")]
  {
    var kind := KindOf(lead, tail);
    var base := dir + [stem + WrittenSuffix(kind)];
    WrittenKindUnique(stem, kind);
    EndingSwapped(base, stem, WrittenSuffix(kind), StoredSuffix(kind));
    assert Dir(base) == dir;
  }

  /** A name with a stored suffix stands for itself; any other for a `.ts`, then a `.tsx` file, then itself. */
  lemma OtherCandidates(base: Path)
    requires base != [] && forall stem, lead, tail :: !Spells(Last(base), stem, lead, "js", tail)
    ensures Candidates(base)
         == if exists stem, lead, tail :: Spells(Last(base), stem, lead, "ts", tail) then [Candidate(base, "", "")]
            else [Candidate(Dir(base) + [Last(base) + ".ts"], ".ts", ""),
                  Candidate(Dir(base) + [Last(base) + ".tsx"], ".tsx", ""),
                  Candidate(base, "", "")]
  {
    ScriptsRecognisedIff(Last(base));
    StoredRecognisedIff(Last(base));
    assert Last(base) == Last(base) + "";
    EndingSwapped(base, Last(base), "", ".ts");
    EndingSwapped(base, Last(base), "", ".tsx");
  }

  // ----- the rewritten specifier names the moved file

  /** How a candidate other than the path itself relates to that path: same stem, other suffix. */
  lemma ScriptCandidate(base: Path, c: Candidate) returns (stem: string, kind: nat)
    requires base != [] && c in Candidates(base) && c.strip != ""
    ensures kind < KINDS && c.strip == StoredSuffix(kind)
    ensures Last(base) == stem + c.restore && c.file == Dir(base) + [stem + c.strip]
    ensures c.restore == WrittenSuffix(kind) || (c.restore == "" && (kind == 0 || kind == 3))
  {
    var name := Last(base);
    kind := WrittenKind(name);
    SuffixFacts(0);
    if kind < KINDS {
      hide WrittenSuffix, StoredSuffix;
      stem := name[..|name| - |WrittenSuffix(kind)|];
      EndingSwapped(base, stem, WrittenSuffix(kind), StoredSuffix(kind));
    } else {
      stem := name;
      kind := if c.strip == ".ts" then 0 else 3;
      assert name == stem + "";
      EndingSwapped(base, stem, "", c.strip);
    }
  }

  lemma WrittenOfCandidate(base: Path, c: Candidate)
    requires base != [] && c in Candidates(base)
    ensures |c.strip| <= |Last(c.file)| && Written(c.file, c) == base
  {
    hide WrittenSuffix, StoredSuffix, Candidates;
    if c.strip != "" {
      var stem, kind := ScriptCandidate(base, c);
      EndingSwapped(c.file, stem, c.strip, c.restore);
      assert Dir(c.file) == Dir(base) && base == Dir(base) + [Last(base)];
    } else {
      UnstrippedIsBase(base, c);
    }
  }

  lemma UnstrippedIsBase(base: Path, c: Candidate)
    requires c in Candidates(base) && c.strip == ""
    ensures c == Candidate(base, "", "")
  {
    hide EndsWith, WrittenKind, LooksStored, WithEnding, WrittenSuffix, StoredSuffix;
    var cs, kind := Candidates(base), WrittenKind(Last(base));
    if kind < KINDS {
      SuffixFacts(kind);
      assert cs[0].strip == StoredSuffix(kind) && |cs| == 2;
    }
    assert cs[|cs| - 1] == Candidate(base, "", "");
  }

  lemma ItselfIsCandidate(base: Path)
    ensures Candidate(base, "", "") in Candidates(base)
  {
    var cs := Candidates(base);
    assert cs[|cs| - 1] == Candidate(base, "", "");
  }

  /** A stem that does not look like a script, spelled with either suffix, has the stored file as a candidate. */
  lemma StemHasCandidate(dir: Path, stem: string, kind: nat, restore: string)
    requires kind < KINDS && WrittenKind(stem) == KINDS && !LooksStored(stem)
    requires restore == WrittenSuffix(kind) || (restore == "" && (kind == 0 || kind == 3))
    ensures exists d :: d in Candidates(dir + [stem + restore]) && d.file == dir + [stem + StoredSuffix(kind)]
  {
    var base := dir + [stem + restore];
    var cs := Candidates(base);
    SuffixFacts(kind);
    if restore == WrittenSuffix(kind) {
      WrittenKindUnique(stem, kind);
      EndingSwapped(base, stem, restore, StoredSuffix(kind));
      assert cs[0].file == dir + [stem + StoredSuffix(kind)];
    } else {
      assert stem + "" == stem;
      EndingSwapped(base, stem, "", StoredSuffix(kind));
      assert cs[if kind == 0 then 0 else 1].file == dir + [stem + StoredSuffix(kind)];
    }
  }

  /** Where a file of the same kind is written to, it is among the candidates. */
  lemma WrittenHasCandidate(c: Candidate, base: Path, destination: Path)
    requires base != [] && IsPath(base) && c in Candidates(base)
    requires destination == c.file || KeepsKind(c.file, destination)
    ensures |c.strip| <= |Last(destination)| && IsPath(Written(destination, c))
    ensures exists d :: d in Candidates(Written(destination, c)) && d.file == destination
  {
    if destination == c.file {
      WrittenOfCandidate(base, c);
    } else if c.strip == "" {
      ItselfIsCandidate(destination);
    } else {
      MovedScriptHasCandidate(c, base, destination);
    }
  }

  lemma RestoredIsName(stem: string, restore: string, kind: nat)
    requires IsName(stem) && kind < KINDS && (restore == WrittenSuffix(kind) || restore == "")
    ensures IsName(stem + restore)
  {
    hide WrittenSuffix;
    SuffixFacts(kind);
    if restore == "" {
      assert stem + restore == stem;
    }
  }

  lemma MovedScriptHasCandidate(c: Candidate, base: Path, destination: Path)
    requires base != [] && c in Candidates(base) && c.strip != "" && KeepsKind(c.file, destination)
    ensures |c.strip| <= |Last(destination)| && IsPath(Written(destination, c))
    ensures exists d :: d in Candidates(Written(destination, c)) && d.file == destination
  {
    hide WrittenSuffix, StoredSuffix, Candidates, WrittenKind, LooksStored;
    var oldStem, kind := ScriptCandidate(base, c);
    SuffixFacts(kind);
    assert EndsWith(Last(c.file), StoredSuffix(kind));
    var stem :| IsStem(stem, c.strip, Last(destination)) && WrittenKind(stem) == KINDS && !LooksStored(stem);
    EndingSwapped(destination, stem, c.strip, c.restore);
    StemHasCandidate(Dir(destination), stem, kind, c.restore);
    RestoredIsName(stem, c.restore, kind);
  }

  /** The mover's choice is what the specifier named, once it names just one thing. */
  lemma ChosenIsMeaning(dir: Path, specifier: string, moves: Moves, files: set<Path>)
    requires moves.Keys <= files && Unambiguous(Resolve(dir, specifier), files)
    requires Meaning(dir, specifier, files).Some?
    ensures var c := Chosen(Resolve(dir, specifier), moves, files);
      c in Candidates(Resolve(dir, specifier)) && Some(c.file) == Meaning(dir, specifier, files)
  {
  }

  /** Among unambiguous candidates, the one that exists is what the specifier means. */
  lemma MeaningIs(dir: Path, specifier: string, files: set<Path>, file: Path)
    requires Unambiguous(Resolve(dir, specifier), files) && file in files
    requires exists d :: d in Candidates(Resolve(dir, specifier)) && d.file == file
    ensures Meaning(dir, specifier, files) == if Recognised(specifier) then Some(file) else None
  {
  }

  /**
   What a relative specifier means is kept exactly when it stays relative: then, written into the moved
   file and resolved in the moved tree, it names the image of the file it named before, and otherwise it
   names no file. Moves keep the kind of the files they move, and neither the old nor the new specifier is
   ambiguous.
   */
  lemma RewrittenKeepsMeaning(file: Path, specifier: string, moves: Moves, files: set<Path>)
    requires Checked(moves, files) && IsPath(file)
    requires forall f | f in moves :: KeepsKind(f, moves[f])
    requires Resolve(Dir(file), specifier) != [] && Unambiguous(Resolve(Dir(file), specifier), files)
    requires Meaning(Dir(file), specifier, files).Some?
    ensures var c := Chosen(Resolve(Dir(file), specifier), moves, files);
      |c.strip| <= |Last(Image(moves, c.file))|
    ensures var rewritten := Rewritten(file, specifier, moves, files);
      var newDir := Dir(Image(moves, file));
      Unambiguous(Resolve(newDir, rewritten), Images(moves, files)) ==>
        Meaning(newDir, rewritten, Images(moves, files))
        == if StaysRelative(file, specifier, moves, files)
           then Some(Image(moves, Meaning(Dir(file), specifier, files).value)) else None
  {
    hide Candidates, Chosen, KeepsKind, Unambiguous, Resolve, Written, Recognised, Reaches;
    var base, newDir := Resolve(Dir(file), specifier), Dir(Image(moves, file));
    var c := Chosen(base, moves, files);
    ResolveIsPath(Dir(file), specifier);
    ChosenIsMeaning(Dir(file), specifier, moves, files);
    var destination := Image(moves, c.file);
    WrittenHasCandidate(c, base, destination);
    assert c.file in files && destination in Images(moves, files);
    var rewritten := Rewritten(file, specifier, moves, files);
    if c.file in moves || Dir(file) != newDir {
      ResolveOfRelative(newDir, Written(destination, c));
      RelativeSpecifierRecognisedIff(newDir, Written(destination, c));
    }
    if Unambiguous(Resolve(newDir, rewritten), Images(moves, files)) {
      MeaningIs(newDir, rewritten, Images(moves, files), destination);
    }
  }

  /** A file `m` of `dir`, to move into `dir`'s own subdirectory `b`, imports `x` from that directory's `h`. */
  datatype Example = Example(dir: Path, b: Name, h: Name, m: string, x: string) {
    function Importer(): Path { dir + [m + ".ts"] }
    function Moved(): Path { dir + [b] + [m + ".ts"] }
    function Target(): Path { dir + [b] + [h] + [x + ".ts"] }
    function Base(): Path { dir + [b] + [h] + [x + ".js"] }
    function Moves(): Moves { map[Importer() := Moved()] }
    function Files(): set<Path> { {Importer(), Target()} }

    ghost predicate Fits() {
      && IsPath(dir) && IsName(b) && IsName(h) && IsName(m) && IsName(x) && "." <= h && !("." <= b)
      && Unquoted(b) && Unquoted(h) && Unquoted(x) && WrittenKind(m) == KINDS && !LooksStored(m)
    }
  }

  /**
   Not every specifier stays relative: whenever `h` begins with a dot, the move turns a working import
   into one that names a package.
   */
  lemma DotDirectoryBreaksImport(e: Example)
    requires e.Fits()
    ensures Checked(e.Moves(), e.Files()) && KeepsKind(e.Importer(), e.Moved())
    ensures var specifier := RelativeSpecifier(e.dir, e.Base());
      && Unambiguous(Resolve(e.dir, specifier), e.Files())
      && Meaning(e.dir, specifier, e.Files()) == Some(e.Target())
      && |Chosen(Resolve(e.dir, specifier), e.Moves(), e.Files()).strip| <= |Last(e.Target())|
      && Rewritten(e.Importer(), specifier, e.Moves(), e.Files()) == RelativeSpecifier(e.dir + [e.b], e.Base())
      && !Recognised(RelativeSpecifier(e.dir + [e.b], e.Base()))
  {
    hide Candidates, Resolve, RelativeSpecifier, Reaches, WithEnding, KeepsKind, Recognised, WrittenKind, LooksStored;
    var c := Candidate(e.Target(), ".ts", ".js");
    ExamplePaths(e);
    ExampleCandidates(e);
    ExampleKeepsKind(e);
    ExampleReaches(e);
    ResolveOfRelative(e.dir, e.Base());
    RelativeSpecifierRecognisedIff(e.dir, e.Base());
    RelativeSpecifierRecognisedIff(e.dir + [e.b], e.Base());
    var cs := [c, Candidate(e.Base(), "", "")];
    assert FirstIn(cs, e.Moves().Keys) == None && FirstIn(cs, e.Files()) == Some(c) by {
      assert FirstIn(cs[1..], e.Moves().Keys) == None;
    }
  }

  /** So `/a/m.ts`, moved to `/a/b/m.ts`, imports `.h/x.js` instead of `./b/.h/x.js`. */
  lemma DotDirectoryBreaksThisImport()
    ensures var e := Example(["a"], "b", ".h", "m", "x");
      && e.Fits()
      && RelativeSpecifier(e.dir, e.Base()) == "./b/.h/x.js"
      && RelativeSpecifier(e.dir + [e.b], e.Base()) == ".h/x.js"
      && Meaning(e.dir, "./b/.h/x.js", e.Files()) == Some(e.Target())
      && Meaning(e.dir + [e.b], ".h/x.js", Images(e.Moves(), e.Files())) == None
  {
    hide RelativeSpecifier, Example.Fits, Recognised, FirstIn, Candidates, Resolve, Images, Rewritten, Chosen;
    hide Checked, KeepsKind, Unambiguous;
    var e := Example(["a"], "b", ".h", "m", "x");
    ThisExampleFits();
    DotDirectoryBreaksImport(e);
    SpecifierBelow(["a"], ["b", ".h", "x.js"]);
    SpecifierBelow(["a", "b"], [".h", "x.js"]);
    assert "x" + ".js" == "x.js" && ["a"] + ["b"] == ["a", "b"];
    assert e.Base() == ["a"] + ["b", ".h", "x.js"] == ["a", "b"] + [".h", "x.js"];
    ThreeNames("b", ".h", "x.js");
  }

  lemma ThisExampleFits()
    ensures Example(["a"], "b", ".h", "m", "x").Fits()
  {
    hide IsName, Unquoted;
    ShortNames('a');
    ShortNames('b');
    ShortNames('h');
    ShortNames('m');
    ShortNames('x');
    assert "." + "h" == ".h";
    ShortStem("m");
  }

  lemma ShortNames(c: char)
    requires c != '.' && c != '/' && c != '"' && c != '\'' && c != '\n'
    ensures IsName([c]) && IsName("." + [c]) && Unquoted([c]) && Unquoted("." + [c])
  {
    assert ("." + [c])[1] == c;
  }

  lemma ShortStem(stem: string)
    requires |stem| < 3
    ensures WrittenKind(stem) == KINDS && !LooksStored(stem)
  {
    assert forall kind | 0 <= kind < KINDS :: |StoredSuffix(kind)| >= 3 && |WrittenSuffix(kind)| >= 3;
  }

  lemma SpecifierBelow(from: Path, names: Path)
    requires names != [] && names[0] != ""
    ensures RelativeSpecifier(from, from + names) == if "." <= names[0] then Join(names) else "./" + Join(names)
  {
    CommonWithBelow(from, from + names);
    assert Relative(from, from + names) == names;
    assert Join(names)[0] == names[0][0];
    assert "." <= names[0] <==> names[0][0] == '.';
  }

  lemma ThreeNames(a: Name, b: Name, c: Name)
    ensures Join([a, b, c]) == a + "/" + (b + "/" + c) && Join([b, c]) == b + "/" + c
  {
    assert [a, b, c][1..] == [b, c] && [b, c][1..] == [c];
    assert Join([c]) == c;
    assert Join([b, c]) == b + "/" + Join([c]);
  }

  lemma ExampleCandidates(e: Example)
    requires e.Fits()
    ensures Candidates(e.Base()) == [Candidate(e.Target(), ".ts", ".js"), Candidate(e.Base(), "", "")]
    ensures |Last(e.Target())| >= 3 && Written(e.Target(), Candidate(e.Target(), ".ts", ".js")) == e.Base()
  {
    hide WithEnding, Example.Fits, WrittenKind, LooksStored, EndsWith;
    var dir := e.dir + [e.b] + [e.h];
    assert Dir(e.Base()) == dir == Dir(e.Target());
    WrittenKindUnique(e.x, 0);
    EndingSwapped(e.Base(), e.x, ".js", ".ts");
    EndingSwapped(e.Target(), e.x, ".ts", ".js");
  }

  lemma ExamplePaths(e: Example)
    requires e.Fits()
    ensures e.Target() != e.Base() && e.Target() != e.Importer() && e.Base() != e.Importer()
    ensures e.Moved() != e.Importer() && e.Moved() != e.Target()
    ensures Dir(e.Importer()) == e.dir && Dir(e.Moved()) == e.dir + [e.b] && IsPath(e.Base()) && IsPath(e.Moved())
  {
    hide WrittenKind, LooksStored;
    RestoredIsName(e.x, ".js", 0);
    assert '/' !in ".ts" && IsName(e.m + ".ts");
    assert forall i | 0 <= i <= |e.dir| :: (e.dir + [e.b])[i] == (e.dir + [e.b] + [e.h])[i];
    assert |e.Target()| == |e.dir| + 3 && |e.Importer()| == |e.dir| + 1 && |e.Moved()| == |e.dir| + 2;
    assert Last(e.Target())[|e.x| + 1] == 't' && Last(e.Base())[|e.x| + 1] == 'j';
  }

  lemma ExampleKeepsKind(e: Example)
    requires e.Fits()
    ensures KeepsKind(e.Importer(), e.Moved())
  {
    hide WrittenKind, LooksStored;
    ExamplePaths(e);
    assert IsStem(e.m, ".ts", e.m + ".ts");
    forall kind | 0 <= kind < KINDS && EndsWith(e.m + ".ts", StoredSuffix(kind))
      ensures IsStem(e.m, StoredSuffix(kind), e.m + ".ts") && WrittenKind(e.m) == KINDS && !LooksStored(e.m)
    {
      StoredEndings(e.m, kind);
    }
  }

  /** No name ends with two of the stored suffixes either. */
  lemma StoredEndings(stem: string, kind: nat)
    requires kind < KINDS && EndsWith(stem + ".ts", StoredSuffix(kind))
    ensures kind == 0
  {
    var name := stem + ".ts";
    SuffixFacts(kind);
    assert EndsWith(name, ".ts");
    SameEnd(name, ".ts", StoredSuffix(kind));
  }

  lemma ExampleReaches(e: Example)
    requires e.Fits() && IsPath(e.Base())
    ensures Reaches(e.dir, e.Base()) && !Reaches(e.dir + [e.b], e.Base())
  {
    hide WrittenKind, LooksStored;
    var base, near := e.Base(), e.dir + [e.b];
    CommonWithBelow(e.dir, base);
    assert base[|e.dir|] == e.b && base[|near|] == e.h && base[|near| + 1] == e.x + ".js";
    assert e.dir < base && near < base;
    assert Unquoted(".js") && Unquoted(e.x + ".js");
    assert forall i | |e.dir| <= i < |base| :: base[i] == e.b || base[i] == e.h || base[i] == e.x + ".js";
  }

  // ----- the whole run

  /** A source file, as the relative specifiers it contains, in order. */
  type Source = seq<string>

  type Files = map<Path, Source>

  ghost predicate Movable(moves: Moves, files: set<Path>) {
    Checked(moves, files) && (forall f | f in moves :: KeepsKind(f, moves[f])) && forall f | f in files :: IsPath(f)
  }

  /** No specifier of the file resolves to the root directory itself. */
  predicate BelowRoot(file: Path, source: Source) {
    forall i | 0 <= i < |source| :: Resolve(Dir(file), source[i]) != []
  }

  lemma ChosenFits(base: Path, moves: Moves, files: set<Path>)
    requires Movable(moves, files) && base != [] && IsPath(base)
    ensures var c := Chosen(base, moves, files); |c.strip| <= |Last(Image(moves, c.file))|
  {
    hide Candidates, KeepsKind, Written;
    var c := Chosen(base, moves, files);
    if c in Candidates(base) {
      WrittenHasCandidate(c, base, Image(moves, c.file));
    }
  }

  function RewrittenSource(file: Path, source: Source, moves: Moves, files: set<Path>): (r: Source)
    requires Movable(moves, files) && IsPath(file) && BelowRoot(file, source)
    ensures |r| == |source|
  {
    seq(|source|, i requires 0 <= i < |source| =>
      ResolveIsPath(Dir(file), source[i]);
      ChosenFits(Resolve(Dir(file), source[i]), moves, files);
      Rewritten(file, source[i], moves, files))
  }

  /**
   What becomes of one specifier. An unambiguous one that named a file names that file's image from the new
   place if it stays relative, and no file otherwise; one that named no script, as of a directory or an
   asset, leads to the same path; one that is not relative is left alone.
   */
  ghost predicate KeptMeaning(file: Path, specifier: string, after: string, moves: Moves, files: set<Path>) {
    var newDir := Dir(Image(moves, file));
    && (!Recognised(specifier) ==> after == specifier)
    && (Recognised(specifier) && Meaning(Dir(file), specifier, files) == None ==>
          && Resolve(newDir, after) == Resolve(Dir(file), specifier)
          && (Recognised(after) <==> StaysRelative(file, specifier, moves, files)))
    && (Unambiguous(Resolve(Dir(file), specifier), files) && Meaning(Dir(file), specifier, files).Some?
        && Unambiguous(Resolve(newDir, after), Images(moves, files)) ==>
          Meaning(newDir, after, Images(moves, files))
          == if StaysRelative(file, specifier, moves, files)
             then Some(Image(moves, Meaning(Dir(file), specifier, files).value)) else None)
  }

  /** Every specifier of the file keeps its meaning so far. */
  ghost predicate SameMeaning(file: Path, source: Source, after: Source, moves: Moves, files: set<Path>) {
    |after| == |source| && forall i | 0 <= i < |source| :: KeptMeaning(file, source[i], after[i], moves, files)
  }

  /** A relative specifier that names no script leads to the same path from the file's new place. */
  lemma UnnamedStillResolves(file: Path, specifier: string, moves: Moves, files: set<Path>)
    requires Checked(moves, files) && IsPath(file)
    requires Recognised(specifier) && Meaning(Dir(file), specifier, files) == None
    ensures var base := Resolve(Dir(file), specifier);
      && Chosen(base, moves, files) == Candidate(base, "", "") && Image(moves, base) == base
      && var after, newDir := Rewritten(file, specifier, moves, files), Dir(Image(moves, file));
         && Resolve(newDir, after) == base
         && (Recognised(after) <==> StaysRelative(file, specifier, moves, files))
  {
    hide Resolve, Candidates, Recognised, Reaches, RelativeSpecifier;
    var base, newDir := Resolve(Dir(file), specifier), Dir(Image(moves, file));
    ResolveIsPath(Dir(file), specifier);
    ItselfIsCandidate(base);
    NoneFoundMoves(Candidates(base), moves, files);
    ResolveOfRelative(newDir, base);
    RelativeSpecifierRecognisedIff(newDir, base);
  }

  /** Of candidates that do not exist none moves. */
  lemma NoneFoundMoves(cs: seq<Candidate>, moves: Moves, files: set<Path>)
    requires moves.Keys <= files && FirstIn(cs, files) == None
    ensures FirstIn(cs, moves.Keys) == None
    ensures forall d | d in cs :: d.file !in moves
  {
  }

  lemma MeaningKept(file: Path, specifier: string, moves: Moves, files: set<Path>)
    requires Movable(moves, files) && IsPath(file) && Resolve(Dir(file), specifier) != []
    ensures var c := Chosen(Resolve(Dir(file), specifier), moves, files); |c.strip| <= |Last(Image(moves, c.file))|
    ensures KeptMeaning(file, specifier, Rewritten(file, specifier, moves, files), moves, files)
  {
    hide Resolve, Unambiguous, KeepsKind, Chosen, Candidates, StaysRelative, Recognised, Images, Meaning;
    hide RelativeSpecifier;
    ResolveIsPath(Dir(file), specifier);
    ChosenFits(Resolve(Dir(file), specifier), moves, files);
    if Recognised(specifier) && Meaning(Dir(file), specifier, files) == None {
      UnnamedStillResolves(file, specifier, moves, files);
    } else if Unambiguous(Resolve(Dir(file), specifier), files) && Meaning(Dir(file), specifier, files).Some? {
      RewrittenKeepsMeaning(file, specifier, moves, files);
    }
  }

  lemma RewrittenSourceKeepsMeaning(file: Path, source: Source, moves: Moves, files: set<Path>)
    requires Movable(moves, files) && IsPath(file) && BelowRoot(file, source)
    ensures SameMeaning(file, source, RewrittenSource(file, source, moves, files), moves, files)
  {
    hide Resolve, KeepsKind, Rewritten, Chosen, KeptMeaning, Movable;
    var after := RewrittenSource(file, source, moves, files);
    forall i | 0 <= i < |source|
      ensures KeptMeaning(file, source[i], after[i], moves, files)
    {
      MeaningKept(file, source[i], moves, files);
    }
  }

  /** The moves of the files listed. */
  ghost function Part(moves: Moves, listed: seq<Path>): Moves {
    map p | p in moves && p in listed :: moves[p]
  }

  /** The files after all moves at once. */
  ghost predicate MovedAtOnce(before: Files, after: Files, moves: Moves) {
    && after.Keys == Images(moves, before.Keys)
    && forall f | f in before :: after[Image(moves, f)] == before[f]
  }

  class Tree {
    var files: Files

    method Rename(from: Path, to: Path)
      requires from in files && from != to
      modifies this
      ensures files == (old(files) - {from})[to := old(files)[from]]
    {
      files := (files - {from})[to := files[from]];
    }
  }

  ghost predicate Distinct(ps: seq<Path>) { forall i, j | 0 <= i < j < |ps| :: ps[i] != ps[j] }

  /** Why the mover refuses to start. */
  datatype MoveError = NothingToMove | MissingSource(file: Path) | TargetExists(file: Path) | TwoFilesMapTo(file: Path)

  /** The checks before anything changes: they pass exactly when the moves can all be carried out. */
  method CheckMoves(moves: Moves, order: seq<Path>, files: set<Path>) returns (error: Option<MoveError>)
    requires Distinct(order) && forall p :: p in order <==> p in moves
    ensures error.None? <==> moves != map[] && Checked(moves, files)
    ensures error == Some(NothingToMove) <==> moves == map[]
    ensures forall p :: error == Some(MissingSource(p)) ==> p in moves && p !in files
    ensures forall p :: error == Some(TargetExists(p)) ==> p in moves.Values && p in files
    ensures forall p :: error == Some(TwoFilesMapTo(p)) ==>
      exists a, b :: a in moves && b in moves && a != b && moves[a] == p == moves[b]
  {
    if |order| == 0 {
      assert forall p | p in moves :: p in order;
      return Some(NothingToMove);
    }
    assert order[0] in moves;
    var targets: set<Path> := {};
    for i := 0 to |order|
      invariant forall j | 0 <= j < i :: order[j] in files && moves[order[j]] !in files
      invariant targets == set j | 0 <= j < i :: moves[order[j]]
      invariant forall j, k | 0 <= j < k < i :: moves[order[j]] != moves[order[k]]
    {
      var from := order[i];
      assert from in order;
      var to := moves[from];
      if from !in files {
        return Some(MissingSource(from));
      }
      if to in files {
        assert to in moves.Values;
        return Some(TargetExists(to));
      }
      if to in targets {
        var j :| 0 <= j < i && moves[order[j]] == to;
        assert order[j] in order && order[j] != from;
        return Some(TwoFilesMapTo(to));
      }
      targets := targets + {to};
    }
    ListedMovesChecked(moves, order, files);
    return None;
  }

  lemma ListedMovesChecked(moves: Moves, order: seq<Path>, files: set<Path>)
    requires forall p :: p in order <==> p in moves
    requires forall j | 0 <= j < |order| :: order[j] in files && moves[order[j]] !in files
    requires forall j, k | 0 <= j < k < |order| :: moves[order[j]] != moves[order[k]]
    ensures Checked(moves, files)
  {
    forall a, b | a in moves && b in moves && a != b
      ensures moves[a] != moves[b]
    {
      var j :| 0 <= j < |order| && order[j] == a;
      var k :| 0 <= k < |order| && order[k] == b;
    }
  }

  lemma PartGrows(moves: Moves, order: seq<Path>, i: nat)
    requires Distinct(order) && i < |order| && order[i] in moves
    ensures order[i] !in Part(moves, order[..i])
    ensures Part(moves, order[..i + 1]) == Part(moves, order[..i])[order[i] := moves[order[i]]]
  {
    assert order[..i + 1] == order[..i] + [order[i]];
  }

  lemma TargetStillFree(before: Files, mid: Files, moves: Moves, listed: seq<Path>, from: Path)
    requires Checked(moves, before.Keys) && MovedAtOnce(before, mid, Part(moves, listed))
    requires from in moves && from !in listed
    ensures from in mid && moves[from] !in mid && from !in Part(moves, listed).Values
  {
    var part := Part(moves, listed);
    assert Image(part, from) == from;
    forall f | f in before
      ensures Image(part, f) != moves[from]
    {
      assert moves[from] in moves.Values;
    }
    forall p | p in part
      ensures part[p] != from
    {
      assert moves[p] in moves.Values;
    }
  }

  /** The renames, one after the other, do what moving everything at once would. */
  method MoveFiles(tree: Tree, moves: Moves, order: seq<Path>)
    requires Checked(moves, tree.files.Keys)
    requires Distinct(order) && forall p :: p in order <==> p in moves
    modifies tree
    ensures MovedAtOnce(old(tree.files), tree.files, moves)
  {
    hide MovedAtOnce, Checked, Part, Images, Distinct;
    ghost var before := tree.files;
    NothingMoved(before, moves, order[..0]);
    for i := 0 to |order|
      invariant MovedAtOnce(before, tree.files, Part(moves, order[..i]))
    {
      var from := order[i];
      ghost var mid := tree.files;
      assert from in order;
      NotListedBefore(order, i);
      TargetStillFree(before, mid, moves, order[..i], from);
      PartGrows(moves, order, i);
      CheckedSources(before, moves);
      tree.Rename(from, moves[from]);
      OneMoreMove(before, mid, tree.files, Part(moves, order[..i]), from, moves[from]);
    }
    AllListed(moves, order);
    assert order[..|order|] == order;
  }

  lemma NotListedBefore(order: seq<Path>, i: nat)
    requires Distinct(order) && i < |order|
    ensures order[i] !in order[..i]
  {
  }

  lemma CheckedSources(files: Files, moves: Moves)
    requires Checked(moves, files.Keys)
    ensures forall p | p in moves :: p in files
  {
  }

  lemma NothingMoved(files: Files, moves: Moves, listed: seq<Path>)
    requires listed == []
    ensures MovedAtOnce(files, files, Part(moves, listed))
  {
    assert Part(moves, listed) == map[];
    assert forall f | f in files :: f == Image(map[], f);
  }

  lemma AllListed(moves: Moves, order: seq<Path>)
    requires forall p :: p in order <==> p in moves
    ensures Part(moves, order) == moves
  {
  }

  /** Rewrites every file in place; no file moves yet. */
  method RewriteFiles(tree: Tree, tracked: seq<Path>, moves: Moves)
    requires Movable(moves, tree.files.Keys)
    requires forall f | f in tree.files :: BelowRoot(f, tree.files[f])
    requires Distinct(tracked) && forall p :: p in tracked <==> p in tree.files
    modifies tree
    ensures tree.files.Keys == old(tree.files.Keys)
    ensures forall f | f in tree.files ::
      SameMeaning(f, old(tree.files)[f], tree.files[f], moves, old(tree.files.Keys))
  {
    hide SameMeaning, KeepsKind, Checked, RewrittenSource, BelowRoot;
    ghost var before := tree.files;
    for i := 0 to |tracked|
      invariant tree.files.Keys == before.Keys
      invariant forall j | 0 <= j < i ::
        SameMeaning(tracked[j], before[tracked[j]], tree.files[tracked[j]], moves, before.Keys)
      invariant forall j | i <= j < |tracked| :: tree.files[tracked[j]] == before[tracked[j]]
    {
      var f := tracked[i];
      assert f in tracked;
      RewrittenSourceKeepsMeaning(f, tree.files[f], moves, tree.files.Keys);
      tree.files := tree.files[f := RewrittenSource(f, tree.files[f], moves, tree.files.Keys)];
    }
    forall f | f in tree.files
      ensures SameMeaning(f, before[f], tree.files[f], moves, before.Keys)
    {
      var i :| 0 <= i < |tracked| && tracked[i] == f;
    }
  }

  /** The whole run: every file is rewritten in place, and then the moves are carried out. */
  method MoveModules(tree: Tree, tracked: seq<Path>, moves: Moves, order: seq<Path>)
    requires Movable(moves, tree.files.Keys)
    requires forall f | f in tree.files :: BelowRoot(f, tree.files[f])
    requires Distinct(tracked) && forall p :: p in tracked <==> p in tree.files
    requires Distinct(order) && forall p :: p in order <==> p in moves
    modifies tree
    ensures tree.files.Keys == Images(moves, old(tree.files.Keys))
    ensures forall f | f in old(tree.files) ::
      SameMeaning(f, old(tree.files)[f], tree.files[Image(moves, f)], moves, old(tree.files.Keys))
  {
    hide SameMeaning, KeepsKind, BelowRoot;
    RewriteFiles(tree, tracked, moves);
    MoveFiles(tree, moves, order);
  }

  lemma OneMoreMove(before: Files, mid: Files, after: Files, moves: Moves, from: Path, to: Path)
    requires MovedAtOnce(before, mid, moves) && from in before && from !in moves && from in mid && to !in mid
    requires from !in moves.Values
    requires after == (mid - {from})[to := mid[from]]
    ensures MovedAtOnce(before, after, moves[from := to])
  {
    var more := moves[from := to];
    forall f | f in before
      ensures Image(more, f) in after && after[Image(more, f)] == before[f]
    {
      assert Image(moves, f) in mid;
      assert f != from ==> Image(moves, f) != from;
    }
    forall p | p in after
      ensures p in Images(more, before.Keys)
    {
      if p == to {
        assert p == Image(more, from);
      } else {
        assert p in Images(moves, before.Keys);
        var f :| f in before && Image(moves, f) == p;
        assert p == Image(more, f);
      }
    }
  }
}
