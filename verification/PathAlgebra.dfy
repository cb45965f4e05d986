/** Absolute paths as lists of names, and the relative specifiers between them. */
module PathAlgebra {
  type Name = string
  type Path = seq<Name>

  predicate IsName(n: Name) { n != "" && n != "." && n != ".." && '/' !in n }

  predicate IsPath(p: Path) { forall i | 0 <= i < |p| :: IsName(p[i]) }

  function Split(s: string): (parts: seq<string>)
    ensures parts != []
  {
    if s == "" then [""]
    else
      var rest := Split(s[1..]);
      if s[0] == '/' then [""] + rest else [[s[0]] + rest[0]] + rest[1..]
  }

  function Join(parts: seq<string>): string {
    if parts == [] then "" else if |parts| == 1 then parts[0] else parts[0] + "/" + Join(parts[1..])
  }

  lemma {:induction false} SplitOfNext(name: string, s: string)
    requires '/' !in name
    ensures Split(name + "/" + s) == [name] + Split(s)
  {
    if name == "" {
      assert (name + "/" + s)[1..] == s;
    } else {
      assert (name + "/" + s)[1..] == name[1..] + "/" + s;
      SplitOfNext(name[1..], s);
      assert ([name[1..]] + Split(s))[1..] == Split(s);
      assert [name[0]] + name[1..] == name;
    }
  }

  lemma {:induction false} SplitOfName(name: string)
    requires '/' !in name
    ensures Split(name) == [name]
  {
    if name != "" {
      SplitOfName(name[1..]);
      assert [name[0]] + name[1..] == name;
    }
  }

  lemma {:induction false} SplitOfJoin(parts: seq<string>)
    requires parts != [] && forall i | 0 <= i < |parts| :: '/' !in parts[i]
    ensures Split(Join(parts)) == parts
  {
    if |parts| == 1 {
      SplitOfName(parts[0]);
    } else {
      SplitOfNext(parts[0], Join(parts[1..]));
      SplitOfJoin(parts[1..]);
    }
  }

  lemma {:induction false} PartsHoldNoSlash(s: string)
    ensures forall i | 0 <= i < |Split(s)| :: '/' !in Split(s)[i]
  {
    if s != "" {
      PartsHoldNoSlash(s[1..]);
    }
  }

  /** `path.resolve` of a relative specifier, one part at a time. */
  function Walk(dir: Path, parts: seq<string>): Path
    decreases |parts|
  {
    if parts == [] then dir
    else
      var next :=
        if parts[0] == "" || parts[0] == "." then dir
        else if parts[0] == ".." then (if dir == [] then [] else dir[..|dir| - 1])
        else dir + [parts[0]];
      Walk(next, parts[1..])
  }

  function Resolve(dir: Path, specifier: string): Path { Walk(dir, Split(specifier)) }

  lemma {:induction false} WalkIsPath(dir: Path, parts: seq<string>)
    requires IsPath(dir) && forall i | 0 <= i < |parts| :: '/' !in parts[i]
    ensures IsPath(Walk(dir, parts))
    decreases |parts|
  {
    if parts != [] {
      var next :=
        if parts[0] == "" || parts[0] == "." then dir
        else if parts[0] == ".." then (if dir == [] then [] else dir[..|dir| - 1])
        else dir + [parts[0]];
      WalkIsPath(next, parts[1..]);
    }
  }

  lemma ResolveIsPath(dir: Path, specifier: string)
    requires IsPath(dir)
    ensures IsPath(Resolve(dir, specifier))
  {
    PartsHoldNoSlash(specifier);
    WalkIsPath(dir, Split(specifier));
  }

  function CommonLength(a: Path, b: Path): (n: nat)
    ensures n <= |a| && n <= |b| && a[..n] == b[..n]
    ensures n < |a| && n < |b| ==> a[n] != b[n]
  {
    if a == [] || b == [] || a[0] != b[0] then 0
    else
      var n := CommonLength(a[1..], b[1..]);
      assert a[..n + 1] == [a[0]] + a[1..][..n] && b[..n + 1] == [b[0]] + b[1..][..n];
      n + 1
  }

  lemma {:induction false} CommonWithBelow(from: Path, to: Path)
    requires from <= to
    ensures CommonLength(from, to) == |from|
  {
    if from != [] {
      assert from[1..] == to[1..][..|from| - 1];
      CommonWithBelow(from[1..], to[1..]);
    }
  }

  function Ups(n: nat): (s: seq<string>)
    ensures |s| == n && forall i | 0 <= i < n :: s[i] == ".."
  {
    seq(n, i => "..")
  }

  /** The parts of `path.relative(from, to)`. */
  function Relative(from: Path, to: Path): seq<string> {
    var n := CommonLength(from, to);
    Ups(|from| - n) + to[n..]
  }

  function RelativeSpecifier(from: Path, target: Path): string {
    var relative := Join(Relative(from, target));
    if relative != "" && relative[0] == '.' then relative else "./" + relative
  }

  lemma {:induction false} WalkUp(dir: Path, n: nat, rest: seq<string>)
    requires n <= |dir|
    ensures Walk(dir, Ups(n) + rest) == Walk(dir[..|dir| - n], rest)
    decreases n
  {
    if n == 0 {
      assert Ups(0) + rest == rest && dir[..|dir|] == dir;
    } else {
      assert (Ups(n) + rest)[1..] == Ups(n - 1) + rest;
      WalkUp(dir[..|dir| - 1], n - 1, rest);
      assert dir[..|dir| - 1][..|dir| - n] == dir[..|dir| - n];
    }
  }

  lemma {:induction false} WalkDown(dir: Path, names: Path)
    requires IsPath(names)
    ensures Walk(dir, names) == dir + names
    decreases |names|
  {
    if names != [] {
      assert IsName(names[0]);
      WalkDown(dir + [names[0]], names[1..]);
    }
  }

  lemma WalkRelative(from: Path, to: Path)
    requires IsPath(to)
    ensures Walk(from, Relative(from, to)) == to
  {
    var n := CommonLength(from, to);
    WalkUp(from, |from| - n, to[n..]);
    WalkDown(from[..n], to[n..]);
    assert from[..n] + to[n..] == to;
  }

  /** The algebra the mover rests on: a relative specifier leads from its directory to its target. */
  lemma ResolveOfRelative(from: Path, to: Path)
    requires IsPath(to)
    ensures Resolve(from, RelativeSpecifier(from, to)) == to
  {
    var parts := Relative(from, to);
    WalkRelative(from, to);
    if parts == [] {
      SplitOfNext(".", "");
      assert "." + "/" + "" == "./" + "" == "./";
      assert RelativeSpecifier(from, to) == "./" && Split("./") == [".", ""];
      assert [".", ""][1..] == [""] && [""][1..] == [];
      assert Walk(from, [".", ""]) == Walk(from, [""]) == from;
      assert from == to;
    } else {
      SplitOfJoin(parts);
      SplitOfNext(".", Join(parts));
      assert "." + "/" + Join(parts) == "./" + Join(parts);
      assert (["."] + parts)[1..] == parts;
    }
  }

  predicate LooksRelative(s: string) { "./" <= s || "../" <= s }

  predicate Unquoted(s: string) { '"' !in s && '\'' !in s && '\n' !in s }

  /** What the mover's pattern takes for a relative specifier: `.` or `..`, a slash, no quote or newline. */
  predicate Recognised(s: string) { LooksRelative(s) && Unquoted(s) }

  /**
   A specifier from `from` to `to` can be written relatively: `to` is not the parent directory itself,
   does not lie below `from` under a name that begins with a dot, and has no quote or newline in what
   the specifier spells out.
   */
  predicate Reaches(from: Path, to: Path) {
    && !(from != [] && to == from[..|from| - 1])
    && !(from < to && "." <= to[|from|])
    && forall i | CommonLength(from, to) <= i < |to| :: Unquoted(to[i])
  }

  /**
   A rewritten specifier is one the mover would recognise again, except when the target is the parent
   directory itself or lies below the importer's directory under a name that begins with a dot.
   */
  lemma RelativeSpecifierLooksRelativeIff(from: Path, to: Path)
    requires IsPath(to)
    ensures LooksRelative(RelativeSpecifier(from, to))
       <==> !(from != [] && to == from[..|from| - 1]) && !(from < to && to[|from|][0] == '.')
  {
    var parts := Relative(from, to);
    if parts != [] && parts[0] == ".." {
      UpLooksRelative(parts);
    } else if parts != [] {
      assert parts == to[|from|..] && from < to;
      DownLooksRelative(parts);
    }
  }

  /** Exactly the targets that can be written relatively are. */
  lemma RelativeSpecifierRecognisedIff(from: Path, to: Path)
    requires IsPath(to)
    ensures Recognised(RelativeSpecifier(from, to)) <==> Reaches(from, to)
  {
    hide LooksRelative, Unquoted, Relative, RelativeSpecifier;
    RelativeSpecifierLooksRelativeIff(from, to);
    SpecifierUnquotedIff(from, to);
    assert from < to ==> IsName(to[|from|]);
  }

  lemma SpecifierUnquotedIff(from: Path, to: Path)
    ensures Unquoted(RelativeSpecifier(from, to))
       <==> forall i | CommonLength(from, to) <= i < |to| :: Unquoted(to[i])
  {
    hide Unquoted, Join;
    hide CommonLength;
    var n := CommonLength(from, to);
    var ups, downs := Ups(|from| - n), to[n..];
    JoinUnquoted(ups + downs);
    DottedUnquoted(Join(ups + downs));
    assert Unquoted("..") by {
      DottedUnquoted("");
    }
    assert forall i | 0 <= i < |ups| :: (ups + downs)[i] == "..";
    assert forall i | n <= i < |to| :: to[i] == (ups + downs)[|ups| + i - n];
  }

  lemma DottedUnquoted(s: string)
    ensures Unquoted("./" + s) == Unquoted(s) && Unquoted("..")
  {
    assert forall c | c in "./" + s :: c == '.' || c == '/' || c in s;
    assert forall c | c in s :: c in "./" + s;
  }

  lemma {:induction false} JoinUnquoted(parts: seq<string>)
    ensures Unquoted(Join(parts)) <==> forall i | 0 <= i < |parts| :: Unquoted(parts[i])
  {
    if |parts| > 1 {
      JoinUnquoted(parts[1..]);
      assert forall i | 1 <= i < |parts| :: parts[i] == parts[1..][i - 1];
    }
  }

  lemma UpLooksRelative(parts: seq<string>)
    requires parts != [] && parts[0] == ".."
    ensures LooksRelative(Join(parts)) <==> |parts| > 1
  {
    if |parts| > 1 {
      assert Join(parts) == "../" + Join(parts[1..]);
    } else {
      assert Join(parts)[1] == '.';
    }
  }

  lemma DownLooksRelative(parts: Path)
    requires parts != [] && IsPath(parts)
    ensures var s := Join(parts);
      s != "" && s[0] == parts[0][0] && (s[0] == '.' ==> !LooksRelative(s))
  {
    var name, s := parts[0], Join(parts);
    assert IsName(name);
    assert s[..|name|] == name;
    assert |parts| > 1 ==> s[|name|] == '/';
    if name[0] == '.' {
      assert |name| > 1 && name[1] != '/';
      assert |name| > 2 ==> name[2] != '/';
      assert name[1] == '.' ==> |name| > 2;
    }
  }
}
