/**
 The digest over a set of files: sorted by path, framed, and hashed. The order of paths and the hash are
 parameters: the order is any total one, in which different paths may tie as they can in a locale, and
 the hash only has to have digests of 64 characters and no collision among the inputs at hand.
 */
module SchemaDigests {
  datatype File = File(path: string, content: string)

  /** "Sorts at or before", as a comparison of two paths. */
  type Order = (string, string) -> bool

  type Hash = string -> string

  const DIGEST_LENGTH := 64

  ghost predicate IsTotal(le: Order) {
    && (forall p, q :: le(p, q) || le(q, p))
    && (forall p, q, r :: le(p, q) && le(q, r) ==> le(p, r))
  }

  ghost predicate Tied(le: Order, p: string, q: string) { le(p, q) && le(q, p) && p != q }

  ghost predicate NoTies(files: seq<File>, le: Order) {
    forall f, g | f in files && g in files :: !Tied(le, f.path, g.path)
  }

  ghost predicate DistinctPaths(files: seq<File>) {
    forall i, j | 0 <= i < j < |files| :: files[i].path != files[j].path
  }

  ghost predicate Ascending(files: seq<File>, le: Order) {
    forall i, j | 0 <= i < j < |files| :: le(files[i].path, files[j].path)
  }

  /** In front of whatever sorts at or after it, so that the sort is stable. */
  function Insert(f: File, files: seq<File>, le: Order): seq<File> {
    if files == [] || le(f.path, files[0].path) then [f] + files else [files[0]] + Insert(f, files[1..], le)
  }

  function ByPath(files: seq<File>, le: Order): (r: seq<File>)
    ensures multiset(r) == multiset(files) && |r| == |files|
  {
    if files == [] then []
    else
      InsertAdds(files[0], ByPath(files[1..], le), le);
      assert files == [files[0]] + files[1..];
      Insert(files[0], ByPath(files[1..], le), le)
  }

  lemma {:induction false} InsertAdds(f: File, files: seq<File>, le: Order)
    ensures multiset(Insert(f, files, le)) == multiset(files) + multiset{f} && |Insert(f, files, le)| == |files| + 1
  {
    if files != [] && !le(f.path, files[0].path) {
      InsertAdds(f, files[1..], le);
      assert files == [files[0]] + files[1..];
    }
  }

  lemma {:induction false} InsertKeepsAscending(f: File, files: seq<File>, le: Order)
    requires IsTotal(le) && Ascending(files, le)
    ensures Ascending(Insert(f, files, le), le)
  {
    if files != [] {
      if le(f.path, files[0].path) {
        assert forall j | 0 <= j < |files| :: le(files[0].path, files[j].path);
      } else {
        var rest := Insert(f, files[1..], le);
        InsertKeepsAscending(f, files[1..], le);
        InsertAdds(f, files[1..], le);
        forall j | 0 <= j < |rest|
          ensures le(files[0].path, rest[j].path)
        {
          assert rest[j] in multiset(rest);
          assert rest[j] == f || rest[j] in files[1..];
        }
      }
    }
  }

  lemma {:induction false} ByPathAscends(files: seq<File>, le: Order)
    requires IsTotal(le)
    ensures Ascending(ByPath(files, le), le)
  {
    if files != [] {
      ByPathAscends(files[1..], le);
      InsertKeepsAscending(files[0], ByPath(files[1..], le), le);
    }
  }

  lemma SameLeast(a: seq<File>, b: seq<File>, le: Order)
    requires IsTotal(le) && Ascending(a, le) && Ascending(b, le) && multiset(a) == multiset(b) && a != [] && b != []
    requires NoTies(a, le) && DistinctPaths(a)
    ensures a[0] == b[0]
  {
    assert a[0] in multiset(b) && b[0] in multiset(a);
    var i :| 0 <= i < |b| && b[i] == a[0];
    var j :| 0 <= j < |a| && a[j] == b[0];
    assert !Tied(le, a[0].path, a[j].path);
  }

  /** A set of files without ties has one sorted list. */
  lemma {:induction false} AscendingIsUnique(a: seq<File>, b: seq<File>, le: Order)
    requires IsTotal(le) && Ascending(a, le) && Ascending(b, le) && multiset(a) == multiset(b)
    requires NoTies(a, le) && DistinctPaths(a)
    ensures a == b
  {
    hide IsTotal, Tied;
    assert |a| == |multiset(a)| == |multiset(b)| == |b|;
    if a != [] {
      SameLeast(a, b, le);
      TailsHoldTheSame(a, b);
      AscendingIsUnique(a[1..], b[1..], le);
      assert a == [a[0]] + a[1..] && b == [b[0]] + b[1..];
    }
  }

  lemma TailsHoldTheSame(a: seq<File>, b: seq<File>)
    requires a != [] && b != [] && a[0] == b[0] && multiset(a) == multiset(b)
    ensures multiset(a[1..]) == multiset(b[1..])
  {
    assert a == [a[0]] + a[1..] && b == [b[0]] + b[1..];
    assert multiset(a[1..]) == multiset(a) - multiset{a[0]};
    assert multiset(b[1..]) == multiset(b) - multiset{b[0]};
  }

  // ----- frames

  function Frame(f: File, hash: Hash): string { f.path + "\0" + hash(f.content) + "\n" }

  function Framed(files: seq<File>, hash: Hash): string {
    if files == [] then "" else Frame(files[0], hash) + Framed(files[1..], hash)
  }

  function Digest(files: seq<File>, le: Order, hash: Hash): string { hash(Framed(ByPath(files, le), hash)) }

  ghost predicate Collides(hash: Hash, s: string, t: string) { hash(s) == hash(t) && s != t }

  /** Paths hold no NUL and contents have digests of full length. */
  ghost predicate Frameable(files: seq<File>, hash: Hash) {
    forall f | f in files :: '\0' !in f.path && |hash(f.content)| == DIGEST_LENGTH
  }

  ghost predicate NoCollisions(a: seq<File>, b: seq<File>, hash: Hash) {
    forall f, g | f in a && g in b :: !Collides(hash, f.content, g.content)
  }

  lemma NextFrame(text: string, files: seq<File>, i: nat, hash: Hash)
    requires i < |files|
    ensures text + Framed(files[i..], hash) == text + Frame(files[i], hash) + Framed(files[i + 1..], hash)
  {
    hide Frame;
    assert files[i..][0] == files[i] && files[i..][1..] == files[i + 1..];
    var frame, rest := Frame(files[i], hash), Framed(files[i + 1..], hash);
    assert text + (frame + rest) == text + frame + rest;
  }

  method DigestFiles(files: seq<File>, le: Order, hash: Hash) returns (digest: string)
    ensures digest == Digest(files, le, hash)
  {
    hide Frame, ByPath;
    var sorted := ByPath(files, le);
    var text := "";
    for i := 0 to |sorted|
      invariant text + Framed(sorted[i..], hash) == Framed(sorted, hash)
    {
      NextFrame(text, sorted, i, hash);
      text := text + Frame(sorted[i], hash);
    }
    assert text + Framed([], hash) == text;
    digest := hash(text);
  }

  lemma PathEndsAtNul(p: string, q: string, s: string, t: string)
    requires '\0' !in p && '\0' !in q && p + "\0" + s == q + "\0" + t
    ensures p == q && s == t
  {
    var whole := p + "\0" + s;
    assert whole[|p|] == '\0' && whole[|q|] == '\0';
    assert forall i | 0 <= i < |p| :: whole[i] == p[i];
    assert forall i | 0 <= i < |q| :: whole[i] == (q + "\0" + t)[i] == q[i];
    assert |p| == |q|;
    assert p == whole[..|p|] == q;
    assert s == whole[|p| + 1..] == t;
  }

  /** One frame and the rest can be taken apart in one way only. */
  lemma FrameSplits(p: string, q: string, d: string, e: string, s: string, t: string)
    requires '\0' !in p && '\0' !in q && |d| == |e| == DIGEST_LENGTH
    requires p + "\0" + d + "\n" + s == q + "\0" + e + "\n" + t
    ensures p == q && d == e && s == t
  {
    var ds, et := d + "\n" + s, e + "\n" + t;
    assert p + "\0" + ds == p + "\0" + d + "\n" + s;
    assert q + "\0" + et == q + "\0" + e + "\n" + t;
    PathEndsAtNul(p, q, ds, et);
    assert d == ds[..DIGEST_LENGTH] == et[..DIGEST_LENGTH] == e;
    assert s == ds[DIGEST_LENGTH + 1..] == et[DIGEST_LENGTH + 1..] == t;
  }

  /** Different file lists have different frames. */
  lemma {:induction false} FramedIsInjective(a: seq<File>, b: seq<File>, hash: Hash)
    requires Frameable(a, hash) && Frameable(b, hash) && NoCollisions(a, b, hash)
    ensures Framed(a, hash) == Framed(b, hash) ==> a == b
  {
    if a != [] && b != [] && Framed(a, hash) == Framed(b, hash) {
      assert a[0] in a && b[0] in b;
      FrameSplits(
        a[0].path, b[0].path, hash(a[0].content), hash(b[0].content), Framed(a[1..], hash), Framed(b[1..], hash));
      assert !Collides(hash, a[0].content, b[0].content);
      FramedIsInjective(a[1..], b[1..], hash);
      assert a == [a[0]] + a[1..] && b == [b[0]] + b[1..];
    }
  }

  lemma SortedHolds(files: seq<File>, le: Order, f: File)
    ensures f in ByPath(files, le) <==> f in files
  {
    assert f in multiset(ByPath(files, le)) <==> f in multiset(files);
  }

  /** The digest tells two lists of files apart exactly when their sorted lists differ. */
  lemma DigestDecidesSorted(a: seq<File>, b: seq<File>, le: Order, hash: Hash)
    requires Frameable(a, hash) && Frameable(b, hash) && NoCollisions(a, b, hash)
    requires !Collides(hash, Framed(ByPath(a, le), hash), Framed(ByPath(b, le), hash))
    ensures Digest(a, le, hash) == Digest(b, le, hash) <==> ByPath(a, le) == ByPath(b, le)
  {
    hide ByPath, Framed;
    forall f
      ensures (f in ByPath(a, le) <==> f in a) && (f in ByPath(b, le) <==> f in b)
    {
      SortedHolds(a, le, f);
      SortedHolds(b, le, f);
    }
    FramedIsInjective(ByPath(a, le), ByPath(b, le), hash);
  }

  /**
   Where no two paths tie, the digest tells two sets of files apart exactly when some path or content
   differs, whatever the order in which they were found.
   */
  lemma DigestDecidesFiles(a: seq<File>, b: seq<File>, le: Order, hash: Hash)
    requires IsTotal(le) && DistinctPaths(a) && NoTies(a, le)
    requires Frameable(a, hash) && Frameable(b, hash) && NoCollisions(a, b, hash)
    requires !Collides(hash, Framed(ByPath(a, le), hash), Framed(ByPath(b, le), hash))
    ensures Digest(a, le, hash) == Digest(b, le, hash) <==> multiset(a) == multiset(b)
  {
    hide Digest, Framed, Frameable, NoCollisions, Collides, IsTotal, NoTies;
    DigestDecidesSorted(a, b, le, hash);
    if multiset(a) == multiset(b) {
      SortedIsUnique(a, b, le);
    }
  }

  lemma SortedIsUnique(a: seq<File>, b: seq<File>, le: Order)
    requires IsTotal(le) && DistinctPaths(a) && NoTies(a, le) && multiset(a) == multiset(b)
    ensures ByPath(a, le) == ByPath(b, le)
  {
    ByPathAscends(a, le);
    ByPathAscends(b, le);
    forall f
      ensures f in ByPath(a, le) <==> f in a
    {
      SortedHolds(a, le, f);
    }
    SortedStayDistinct(a, ByPath(a, le));
    AscendingIsUnique(ByPath(a, le), ByPath(b, le), le);
  }

  lemma {:induction false} PathOnce(files: seq<File>, f: File, g: File)
    requires DistinctPaths(files) && f.path == g.path && f in files && g in files
    ensures f == g && multiset(files)[f] == 1
  {
    assert files == [files[0]] + files[1..];
    if f in files[1..] {
      assert g in files[1..] by {
        assert files[0].path != f.path;
      }
      PathOnce(files[1..], f, g);
    } else {
      assert files[0] == f && f !in multiset(files[1..]);
    }
  }

  lemma TwiceIn(files: seq<File>, i: nat, j: nat)
    requires i < j < |files|
    ensures files[i] == files[j] ==> multiset(files)[files[i]] >= 2
  {
    assert files == files[..j] + [files[j]] + files[j + 1..];
    assert files[..j][i] == files[i] && files[i] in multiset(files[..j]);
  }

  lemma SortedStayDistinct(a: seq<File>, b: seq<File>)
    requires DistinctPaths(a) && multiset(a) == multiset(b)
    ensures DistinctPaths(b)
  {
    forall i, j | 0 <= i < j < |b|
      ensures b[i].path != b[j].path
    {
      if b[i].path == b[j].path {
        assert b[i] in multiset(a) && b[j] in multiset(a);
        PathOnce(a, b[i], b[j]);
        TwiceIn(b, i, j);
        assert false;
      }
    }
  }

  // ----- ties

  ghost predicate Before(files: seq<File>, f: File, g: File) {
    exists i, j :: 0 <= i < j < |files| && files[i] == f && files[j] == g
  }

  lemma BeforeFirst(files: seq<File>, f: File, g: File)
    requires g in files
    ensures Before([f] + files, f, g)
  {
    var j :| 0 <= j < |files| && files[j] == g;
    assert ([f] + files)[0] == f && ([f] + files)[j + 1] == g;
  }

  lemma BeforeNext(files: seq<File>, f: File, g: File, h: File)
    requires Before(files, f, g)
    ensures Before([h] + files, f, g)
  {
    var i, j :| 0 <= i < j < |files| && files[i] == f && files[j] == g;
    assert ([h] + files)[i + 1] == f && ([h] + files)[j + 1] == g;
  }

  lemma {:induction false} InsertedBefore(f: File, g: File, files: seq<File>, le: Order)
    requires g in files && le(f.path, g.path)
    ensures Before(Insert(f, files, le), f, g)
  {
    if le(f.path, files[0].path) {
      BeforeFirst(files, f, g);
    } else {
      InsertedBefore(f, g, files[1..], le);
      BeforeNext(Insert(f, files[1..], le), f, g, files[0]);
    }
  }

  lemma NotBothBefore(files: seq<File>, f: File, g: File)
    requires DistinctPaths(files) && f != g
    ensures !(Before(files, f, g) && Before(files, g, f))
  {
  }

  lemma FirstStaysFirst(f: File, g: File, rest: seq<File>, le: Order)
    requires le(f.path, g.path)
    ensures Before(ByPath([f, g] + rest, le), f, g)
  {
    hide Before;
    assert ([f, g] + rest)[1..] == [g] + rest && ([g] + rest)[1..] == rest;
    var sorted := ByPath([g] + rest, le);
    SortedHolds([g] + rest, le, g);
    InsertedBefore(f, g, sorted, le);
  }

  lemma SwappedHoldTheSame(f: File, g: File, rest: seq<File>)
    ensures multiset([f, g] + rest) == multiset([g, f] + rest)
    ensures forall h :: h in [f, g] + rest <==> h in [g, f] + rest
  {
  }

  /**
   A tie makes the digest depend on the order in which the files were found: of two files whose paths
   tie, the one listed first stays first.
   */
  lemma TieMovesDigest(f: File, g: File, rest: seq<File>, le: Order, hash: Hash)
    requires DistinctPaths([f, g] + rest) && Tied(le, f.path, g.path)
    requires Frameable([f, g] + rest, hash) && NoCollisions([f, g] + rest, [g, f] + rest, hash)
    requires !Collides(hash, Framed(ByPath([f, g] + rest, le), hash), Framed(ByPath([g, f] + rest, le), hash))
    ensures multiset([f, g] + rest) == multiset([g, f] + rest)
    ensures Digest([f, g] + rest, le, hash) != Digest([g, f] + rest, le, hash)
  {
    hide Framed, Collides, ByPath, Before;
    var a, b := [f, g] + rest, [g, f] + rest;
    SwappedHoldTheSame(f, g, rest);
    FirstStaysFirst(f, g, rest, le);
    FirstStaysFirst(g, f, rest, le);
    assert f != g;
    SortedStayDistinct(a, ByPath(a, le));
    NotBothBefore(ByPath(a, le), f, g);
    DigestDecidesSorted(a, b, le, hash);
  }
}
