/** The state of the depth-first search for imports, and what its steps keep. */
module ImportSearch {
  import opened Sequences
  import opened ImportGraph

  /** A declaration is known by its file and its place among the items of that file. */
  datatype Entry = Entry(file: Path, item: nat)

  /** The open files with the number of items handled in each, the processed files in the order in which they
      were finished, the collected declarations, and whether an error has been reported. */
  datatype State = State(stack: seq<Path>, progress: seq<nat>, order: seq<Path>, decls: seq<Entry>, failed: bool)

  predicate IsDeclaration(fs: FileSystem, e: Entry) {
    IsParsed(fs, e.file) && e.item < |fs[e.file].items| && fs[e.file].items[e.item].Declaration?
  }

  // ----- the order of declarations -----

  /** All declarations of `f` are among `earlier`. */
  ghost predicate AllOf(fs: FileSystem, f: Path, earlier: seq<Entry>) {
    forall i: nat :: IsDeclaration(fs, Entry(f, i)) ==> Entry(f, i) in earlier
  }

  /** Everything that the imports above the declaration bring in is among `earlier`, and so are the
      declarations above it in its own file. */
  ghost predicate After(fs: FileSystem, e: Entry, earlier: seq<Entry>) {
    && (forall i: nat, q :: i < e.item && ImportsAt(fs, e.file, i, q) ==> BroughtIn(fs, q, earlier))
    && (forall i: nat :: i < e.item && IsDeclaration(fs, Entry(e.file, i)) ==> Entry(e.file, i) in earlier)
  }

  ghost predicate BroughtIn(fs: FileSystem, q: Path, earlier: seq<Entry>) {
    forall f :: Reaches(fs, q, f) ==> AllOf(fs, f, earlier)
  }

  ghost predicate InOrder(fs: FileSystem, decls: seq<Entry>) {
    forall b :: 0 <= b < |decls| ==> After(fs, decls[b], decls[..b])
  }

  // ----- the invariant -----

  /** The stack is an import chain from the entry file; its files parse and none of them is processed. */
  ghost predicate StackOk(fs: FileSystem, entry: Path, st: State) {
    && |st.progress| == |st.stack|
    && (st.stack != [] ==> IsPath(fs, st.stack) && st.stack[0] == entry)
    && (forall k :: 0 <= k < |st.stack| ==> IsParsed(fs, st.stack[k]) && st.stack[k] !in st.order)
    && NoDup(st.stack)
  }

  /** The processed files are layered and reachable. */
  ghost predicate ProcessedOk(fs: FileSystem, entry: Path, st: State) {
    Layered(fs, st.order) && NoDup(st.order) && forall p :: p in st.order ==> Reaches(fs, entry, p)
  }

  ghost predicate InOpenPart(st: State, e: Entry)
    requires |st.progress| == |st.stack|
  {
    exists k :: 0 <= k < |st.stack| && st.stack[k] == e.file && e.item < st.progress[k]
  }

  /** Exactly the declarations of the processed files and of the handled parts of the open files have been
      collected, each once and in order. */
  ghost predicate CollectedOk(fs: FileSystem, st: State)
    requires |st.progress| == |st.stack|
  {
    && NoDup(st.decls)
    && (forall e :: e in st.decls <==> IsDeclaration(fs, e) && (e.file in st.order || InOpenPart(st, e)))
    && InOrder(fs, st.decls)
  }

  ghost predicate Inv(fs: FileSystem, entry: Path, st: State) {
    && StackOk(fs, entry, st)
    && if st.failed then !Resolvable(fs, entry) else ProcessedOk(fs, entry, st) && CollectedOk(fs, st)
  }

  /** The items of `p` before `i` include no bare directory, and their imports are processed. */
  ghost predicate Imported(fs: FileSystem, p: Path, i: nat, order: seq<Path>) {
    IsParsed(fs, p) ==>
      && (forall j :: 0 <= j < i && j < |fs[p].items| ==> fs[p].items[j] != Import(Directory))
      && (forall j: nat, q :: j < i && ImportsAt(fs, p, j, q) ==> q in order)
  }

  // ----- the steps -----

  function Top(st: State): Path requires st.stack != [] { st.stack[|st.stack| - 1] }

  function Opened(st: State, p: Path): State {
    st.(stack := st.stack + [p], progress := st.progress + [0])
  }

  function Advanced(st: State): State
    requires st.stack != [] && |st.progress| == |st.stack|
  {
    st.(progress := st.progress[|st.progress| - 1 := st.progress[|st.progress| - 1] + 1])
  }

  function Closed(st: State): State
    requires st.stack != [] && |st.progress| == |st.stack|
  {
    st.(stack := st.stack[..|st.stack| - 1], progress := st.progress[..|st.progress| - 1], order := st.order + [Top(st)])
  }

  function Declared(st: State): State
    requires st.stack != [] && |st.progress| == |st.stack|
  {
    Advanced(st.(decls := st.decls + [Entry(Top(st), st.progress[|st.progress| - 1])]))
  }

  /** The file that may be opened next. */
  ghost predicate Next(fs: FileSystem, entry: Path, st: State, p: Path) {
    if st.stack == [] then p == entry else Edge(fs, Top(st), p)
  }

  lemma NextIsReachable(fs: FileSystem, entry: Path, st: State, p: Path)
    requires StackOk(fs, entry, st) && Next(fs, entry, st, p)
    ensures Reaches(fs, entry, p)
  {
    if st.stack == [] {
      ReachesSelf(fs, entry);
    } else {
      assert Joins(fs, st.stack, entry, Top(st));
      EdgeReaches(fs, Top(st), p);
      ReachesTrans(fs, entry, Top(st), p);
    }
  }

  lemma OpenStep(fs: FileSystem, entry: Path, st: State, p: Path)
    requires Inv(fs, entry, st) && Next(fs, entry, st, p)
    requires IsParsed(fs, p) && p !in st.stack && p !in st.order
    ensures Inv(fs, entry, Opened(st, p))
  {
    var st' := Opened(st, p);
    assert forall k :: 0 <= k < |st.stack| ==> st'.stack[k] == st.stack[k] && st'.progress[k] == st.progress[k];
    assert StackOk(fs, entry, st');
    if !st.failed {
      forall e | IsDeclaration(fs, e) ensures InOpenPart(st', e) <==> InOpenPart(st, e) {
        if InOpenPart(st, e) {
          var k :| 0 <= k < |st.stack| && st.stack[k] == e.file && e.item < st.progress[k];
          assert st'.stack[k] == e.file && e.item < st'.progress[k];
        }
      }
    }
  }

  /** An open file is met again: its stretch of the stack closes a circle. */
  lemma CircleFound(fs: FileSystem, entry: Path, st: State, p: Path)
    requires StackOk(fs, entry, st) && Next(fs, entry, st, p) && p in st.stack
    ensures !Resolvable(fs, entry)
  {
    NextIsReachable(fs, entry, st, p);
    var k :| 0 <= k < |st.stack| && st.stack[k] == p;
    var c := st.stack[k..] + [p];
    forall x | 0 <= x < |c| - 1 ensures Edge(fs, c[x], c[x + 1]) {
      if x + 1 < |c| - 1 {
        assert Edge(fs, st.stack[k + x], st.stack[k + x + 1]);
      }
    }
    assert Joins(fs, c, p, p);
  }

  lemma UnsoundFound(fs: FileSystem, entry: Path, st: State, p: Path)
    requires StackOk(fs, entry, st) && Next(fs, entry, st, p) && !IsSound(fs, p)
    ensures !Resolvable(fs, entry)
  {
    NextIsReachable(fs, entry, st, p);
  }

  lemma UnsoundTop(fs: FileSystem, entry: Path, st: State)
    requires StackOk(fs, entry, st) && st.stack != [] && !IsSound(fs, Top(st))
    ensures !Resolvable(fs, entry)
  {
    assert Joins(fs, st.stack, entry, Top(st));
  }

  /** Which declarations lie in open parts after the top file has advanced by one item. */
  lemma OpenPartAfter(st: State, e: Entry)
    requires st.stack != [] && |st.progress| == |st.stack| && NoDup(st.stack)
    ensures InOpenPart(Advanced(st), e) <==> InOpenPart(st, e) || e == Entry(Top(st), st.progress[|st.progress| - 1])
  {
    var n := |st.stack| - 1;
    var st' := Advanced(st);
    if InOpenPart(st, e) {
      var k :| 0 <= k < |st.stack| && st.stack[k] == e.file && e.item < st.progress[k];
      assert st'.stack[k] == e.file && e.item < st'.progress[k];
    }
    if e == Entry(Top(st), st.progress[n]) {
      assert st'.stack[n] == e.file && e.item < st'.progress[n];
    }
  }

  /** An item that is not a declaration has been handled. */
  lemma AdvanceStep(fs: FileSystem, entry: Path, st: State)
    requires Inv(fs, entry, st) && st.stack != []
    requires !IsDeclaration(fs, Entry(Top(st), st.progress[|st.progress| - 1]))
    ensures Inv(fs, entry, Advanced(st))
  {
    if !st.failed {
      forall e ensures InOpenPart(Advanced(st), e) <==> InOpenPart(st, e) || e == Entry(Top(st), st.progress[|st.progress| - 1]) {
        OpenPartAfter(st, e);
      }
    }
  }

  /** What stands before the next declaration of the top file. */
  lemma DeclarationIsAfter(fs: FileSystem, entry: Path, st: State)
    requires Inv(fs, entry, st) && !st.failed && st.stack != []
    requires var i := st.progress[|st.progress| - 1]; Imported(fs, Top(st), i, st.order)
    ensures After(fs, Entry(Top(st), st.progress[|st.progress| - 1]), st.decls)
  {
    var n := |st.stack| - 1;
    var p := Top(st);
    var i := st.progress[n];
    forall j: nat, q | j < i && ImportsAt(fs, p, j, q) ensures BroughtIn(fs, q, st.decls) {
      forall f, x: nat | Reaches(fs, q, f) && IsDeclaration(fs, Entry(f, x)) ensures Entry(f, x) in st.decls {
        LayeredIsClosed(fs, st.order, q, f);
      }
    }
    forall j: nat | j < i && IsDeclaration(fs, Entry(p, j)) ensures Entry(p, j) in st.decls {
      assert st.stack[n] == p && j < st.progress[n];
      assert InOpenPart(st, Entry(p, j));
    }
  }

  lemma DeclareStep(fs: FileSystem, entry: Path, st: State)
    requires Inv(fs, entry, st) && st.stack != []
    requires var i := st.progress[|st.progress| - 1];
             IsDeclaration(fs, Entry(Top(st), i)) && (!st.failed ==> Imported(fs, Top(st), i, st.order))
    ensures Inv(fs, entry, Declared(st))
  {
    hide After, Layered, Reaches, Imported;
    var n := |st.stack| - 1;
    var e0 := Entry(Top(st), st.progress[n]);
    var decls := st.decls + [e0];
    if !st.failed {
      DeclarationIsAfter(fs, entry, st);
      forall e ensures InOpenPart(Declared(st), e) <==> InOpenPart(st, e) || e == e0 {
        OpenPartAfter(st.(decls := decls), e);
      }
      assert e0 !in st.decls;
      NoDupAppend(st.decls, [e0]);
      forall b | 0 <= b < |decls| ensures After(fs, decls[b], decls[..b]) {
        assert decls[..b] == st.decls[..b];
        assert st.decls[..|st.decls|] == st.decls;
      }
    }
  }

  lemma CloseStep(fs: FileSystem, entry: Path, st: State)
    requires Inv(fs, entry, st) && st.stack != []
    requires var i := st.progress[|st.progress| - 1]; IsParsed(fs, Top(st)) && i == |fs[Top(st)].items|
    requires !st.failed ==> Imported(fs, Top(st), st.progress[|st.progress| - 1], st.order)
    ensures Inv(fs, entry, Closed(st))
    ensures !st.failed ==> Top(st) in Closed(st).order
  {
    var n := |st.stack| - 1;
    var p := Top(st);
    var st' := Closed(st);
    assert StackOk(fs, entry, st');
    if !st.failed {
      NoDupAppend(st.order, [p]);
      assert Joins(fs, st.stack, entry, p);
      forall k | 0 <= k < |st'.order| ensures IsSound(fs, st'.order[k]) && ImportsAmong(fs, st'.order[k], st'.order[..k]) {
        assert st'.order[..k] == st.order[..k];
        assert st.order[..|st.order|] == st.order;
      }
      forall e | IsDeclaration(fs, e)
        ensures e.file in st'.order || InOpenPart(st', e) <==> e.file in st.order || InOpenPart(st, e)
      {
        CloseKeepsParts(fs, st, e);
      }
    }
  }

  lemma CloseKeepsParts(fs: FileSystem, st: State, e: Entry)
    requires st.stack != [] && |st.progress| == |st.stack| && NoDup(st.stack) && IsParsed(fs, Top(st))
    requires st.progress[|st.progress| - 1] == |fs[Top(st)].items| && IsDeclaration(fs, e)
    ensures e.file in Closed(st).order || InOpenPart(Closed(st), e) <==> e.file in st.order || InOpenPart(st, e)
  {
    var n := |st.stack| - 1;
    var st' := Closed(st);
    if e.file == Top(st) {
      assert st.stack[n] == e.file && e.item < st.progress[n];
    } else {
      if InOpenPart(st, e) {
        var k :| 0 <= k < |st.stack| && st.stack[k] == e.file && e.item < st.progress[k];
        assert st'.stack[k] == e.file && e.item < st'.progress[k];
      }
      if InOpenPart(st', e) {
        var k :| 0 <= k < |st'.stack| && st'.stack[k] == e.file && e.item < st'.progress[k];
        assert st.stack[k] == e.file && e.item < st.progress[k];
      }
    }
  }
}
