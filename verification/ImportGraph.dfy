/** Files and the imports between them. The file system is a finite map from canonical paths to what reading
    and parsing the file gives. */
module ImportGraph {

  type Path = string

  /** What the path of an import statement resolves to: a file, or a directory without a `lib.truk`. */
  datatype Target = Directory | File(path: Path)

  /** A top-level item of a file that matters here. */
  datatype Item = Import(target: Target) | Declaration(name: string)

  datatype Content = Unreadable | Unparsable | Parsed(items: seq<Item>)

  type FileSystem = map<Path, Content>

  predicate IsParsed(fs: FileSystem, p: Path) {
    p in fs && fs[p].Parsed?
  }

  /** The file reads, parses and imports no bare directory. */
  predicate IsSound(fs: FileSystem, p: Path) {
    IsParsed(fs, p) && forall i :: 0 <= i < |fs[p].items| ==> fs[p].items[i] != Import(Directory)
  }

  predicate ImportsAt(fs: FileSystem, p: Path, i: nat, q: Path) {
    IsParsed(fs, p) && i < |fs[p].items| && fs[p].items[i] == Import(File(q))
  }

  ghost predicate Edge(fs: FileSystem, p: Path, q: Path) {
    exists i: nat :: ImportsAt(fs, p, i, q)
  }

  ghost predicate IsPath(fs: FileSystem, s: seq<Path>) {
    |s| >= 1 && forall k :: 0 <= k < |s| - 1 ==> Edge(fs, s[k], s[k + 1])
  }

  ghost predicate Joins(fs: FileSystem, s: seq<Path>, p: Path, q: Path) {
    IsPath(fs, s) && s[0] == p && s[|s| - 1] == q
  }

  ghost predicate Reaches(fs: FileSystem, p: Path, q: Path) {
    exists s :: Joins(fs, s, p, q)
  }

  ghost predicate OnCycle(fs: FileSystem, p: Path) {
    exists s :: |s| >= 2 && Joins(fs, s, p, p)
  }

  /** Everything reachable from the entry file is sound, and no import chain runs in a circle. */
  ghost predicate Resolvable(fs: FileSystem, entry: Path) {
    forall p :: Reaches(fs, entry, p) ==> IsSound(fs, p) && !OnCycle(fs, p)
  }

  lemma ReachesSelf(fs: FileSystem, p: Path)
    ensures Reaches(fs, p, p)
  {
    assert Joins(fs, [p], p, p);
  }

  lemma JoinPaths(fs: FileSystem, s: seq<Path>, t: seq<Path>, p: Path, q: Path, r: Path)
    requires Joins(fs, s, p, q) && Joins(fs, t, q, r)
    ensures Joins(fs, s + t[1..], p, r)
  {
    var u := s + t[1..];
    forall k | 0 <= k < |u| - 1 ensures Edge(fs, u[k], u[k + 1]) {
      if k < |s| - 1 {
        assert u[k] == s[k] && u[k + 1] == s[k + 1];
      } else {
        assert u[k] == t[k - (|s| - 1)] && u[k + 1] == t[k - (|s| - 1) + 1];
      }
    }
  }

  lemma ReachesTrans(fs: FileSystem, p: Path, q: Path, r: Path)
    requires Reaches(fs, p, q) && Reaches(fs, q, r)
    ensures Reaches(fs, p, r)
  {
    var s :| Joins(fs, s, p, q);
    var t :| Joins(fs, t, q, r);
    JoinPaths(fs, s, t, p, q, r);
  }

  lemma EdgeReaches(fs: FileSystem, p: Path, q: Path)
    requires Edge(fs, p, q)
    ensures Reaches(fs, p, q)
  {
    assert Joins(fs, [p, q], p, q);
  }

  // ----- sets closed under imports -----

  /** The files of `order` are sound and every import of one of them leads to an earlier one. */
  ghost predicate Layered(fs: FileSystem, order: seq<Path>) {
    forall k :: 0 <= k < |order| ==> IsSound(fs, order[k]) && ImportsAmong(fs, order[k], order[..k])
  }

  ghost predicate ImportsAmong(fs: FileSystem, p: Path, earlier: seq<Path>) {
    forall q :: Edge(fs, p, q) ==> q in earlier
  }

  /** From a position of a layered order one reaches only earlier positions. */
  lemma {:induction false} LayeredDescends(fs: FileSystem, order: seq<Path>, k: nat, s: seq<Path>, q: Path)
    requires Layered(fs, order) && k < |order| && Joins(fs, s, order[k], q)
    ensures exists m :: 0 <= m <= k && order[m] == q && (|s| >= 2 ==> m < k)
    decreases |s|
  {
    if |s| > 1 {
      assert Edge(fs, s[0], s[1]) && ImportsAmong(fs, order[k], order[..k]);
      var m :| 0 <= m < k && order[m] == s[1];
      assert forall x :: 0 <= x < |s| - 2 ==> Edge(fs, s[1..][x], s[1..][x + 1]) by {
        assert forall x :: 0 <= x < |s| - 1 ==> s[1..][x] == s[x + 1];
      }
      assert Joins(fs, s[1..], order[m], q);
      LayeredDescends(fs, order, m, s[1..], q);
    }
  }

  /** What a layered order without repetition says about its files. */
  lemma LayeredIsClosed(fs: FileSystem, order: seq<Path>, p: Path, q: Path)
    requires Layered(fs, order) && p in order && Reaches(fs, p, q)
    requires forall i, j :: 0 <= i < j < |order| ==> order[i] != order[j]
    ensures q in order && IsSound(fs, q) && !OnCycle(fs, q)
  {
    var k :| 0 <= k < |order| && order[k] == p;
    var s :| Joins(fs, s, p, q);
    LayeredDescends(fs, order, k, s, q);
    var m :| 0 <= m <= k && order[m] == q;
    if OnCycle(fs, q) {
      var c :| |c| >= 2 && Joins(fs, c, q, q);
      LayeredDescends(fs, order, m, c, q);
      assert false;
    }
  }
}
