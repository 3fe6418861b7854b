/** The import resolver: a depth-first search over files with the stack of open files and the set of
    processed ones. */
module ImportResolver {
  import opened Sequences
  import opened ImportGraph
  import opened ImportErrors
  import opened ImportSearch

  datatype Resolved = Resolved(success: bool, declarations: seq<Entry>, errors: seq<ImportError>)

  ghost function NotIn(fs: FileSystem, stack: seq<Path>): set<Path> {
    set p | p in fs && p !in stack
  }

  lemma NotInShrinks(fs: FileSystem, stack: seq<Path>, p: Path)
    requires p in fs && p !in stack
    ensures NotIn(fs, stack + [p]) < NotIn(fs, stack)
  {
    assert p in NotIn(fs, stack) && p !in NotIn(fs, stack + [p]);
  }

  class Resolver {
    const fs: FileSystem
    var importStack: seq<Path>
    var processed: set<Path>
    var declarations: seq<Entry>
    var errors: seq<ImportError>
    ghost var progress: seq<nat>
    ghost var order: seq<Path>

    constructor (fs: FileSystem)
      ensures this.fs == fs
    {
      this.fs := fs;
      importStack, processed, declarations, errors := [], {}, [], [];
      progress, order := [], [];
    }

    ghost function Now(): State
      reads this
    {
      State(importStack, progress, order, declarations, errors != [])
    }

    ghost predicate Valid(entry: Path)
      reads this
    {
      && Inv(fs, entry, Now()) && (forall p :: p in processed <==> p in order)
      && Told(fs, entry, importStack, progress, order, errors)
    }

    /** The files that could still be opened. */
    ghost function Unopened(): set<Path>
      reads this
    {
      NotIn(fs, importStack)
    }

    /** process_file. */
    method ProcessFile(p: Path, ghost entry: Path)
      requires Valid(entry) && Next(fs, entry, Now(), p)
      modifies this
      ensures Valid(entry) && importStack == old(importStack) && progress == old(progress)
      ensures old(errors) <= errors && old(order) <= order
      ensures errors == [] ==> p in order
      ensures Settled(p, order, Known(importStack, order), errors)
      decreases Unopened(), 0
    {
      hide Inv, StackOk, Next, Layered, InOrder, Imported, Resolvable, NotIn, Told, Settled, Known, Reaches, EndsInCircle;
      InvStack(fs, entry, Now());
      if p in importStack {
        ReportCircle(p, entry);
        return;
      }
      if p in processed {
        NowSettled(p, importStack, order, errors);
        return;
      }
      ghost var before := Now();
      importStack := importStack + [p];
      if p !in fs || !fs[p].Parsed? {
        importStack := importStack[..|importStack| - 1];
        assert Now() == before;
        ReportFile(p, entry);
        return;
      }
      progress := progress + [0];
      OpenStep(fs, entry, before, p);
      TellOpen(fs, entry, before.stack, before.progress, order, errors, p);
      NotInShrinks(fs, before.stack, p);
      Extract(fs[p].items, p, entry);
      Close(p, entry);
      NowSettled(p, importStack, order, errors);
    }

    method ReportCircle(p: Path, ghost entry: Path)
      requires Valid(entry) && Next(fs, entry, Now(), p) && p in importStack
      modifies this`errors
      ensures Valid(entry) && errors == old(errors) + [Circular(importStack + [p])]
      ensures Settled(p, order, Known(importStack, order), errors)
    {
      hide Next, Layered, InOrder, Imported, Resolvable, Told, Settled, Known, Reaches, EndsInCircle;
      CircleFound(fs, entry, Now(), p);
      CircleIsTrue(fs, entry, Now(), p);
      Report(Circular(importStack + [p]), entry);
      NowSettled(p, importStack, order, errors);
    }

    /** A file that cannot be read or parsed. */
    method ReportFile(p: Path, ghost entry: Path)
      requires Valid(entry) && Next(fs, entry, Now(), p) && !IsParsed(fs, p)
      modifies this`errors
      ensures Valid(entry)
      ensures errors == old(errors) + [if p in fs && fs[p].Unparsable? then ParseError(p) else FileError(p)]
      ensures Settled(p, order, Known(importStack, order), errors)
    {
      hide Next, Layered, InOrder, Imported, Resolvable, Told, Settled, Known, Reaches, EndsInCircle;
      UnsoundFound(fs, entry, Now(), p);
      NextIsReachable(fs, entry, Now(), p);
      Report(if p in fs && fs[p].Unparsable? then ParseError(p) else FileError(p), entry);
      NowSettled(p, importStack, order, errors);
    }

    /** The end of process_file: the file leaves the stack and is processed. */
    method Close(p: Path, ghost entry: Path)
      requires Valid(entry) && IsParsed(fs, p) && importStack != [] && importStack[|importStack| - 1] == p
      requires |progress| == |importStack| && progress[|progress| - 1] == |fs[p].items|
      requires errors == [] ==> Imported(fs, p, |fs[p].items|, order)
      modifies this
      ensures Valid(entry) && importStack == old(importStack)[..|old(importStack)| - 1]
      ensures progress == old(progress)[..|old(progress)| - 1]
      ensures errors == old(errors) && order == old(order) + [p]
    {
      hide Inv, StackOk, Next, Layered, InOrder, Imported, Told;
      InvStack(fs, entry, Now());
      TopNotProcessed(fs, entry, Now());
      CloseStep(fs, entry, Now());
      TellClose(fs, entry, importStack, progress, order, errors);
      importStack := importStack[..|importStack| - 1];
      progress := progress[..|progress| - 1];
      processed := processed + {p};
      order := order + [p];
    }

    method Report(e: ImportError, ghost entry: Path)
      requires Valid(entry) && !Resolvable(fs, entry) && TrueError(fs, entry, e)
      modifies this`errors
      ensures Valid(entry) && errors == old(errors) + [e]
    {
      TellError(fs, entry, importStack, progress, order, errors, e);
      errors := errors + [e];
    }

    /** extract_imports_and_declarations. */
    method Extract(items: seq<Item>, p: Path, ghost entry: Path)
      requires Valid(entry) && IsParsed(fs, p) && items == fs[p].items
      requires importStack != [] && importStack[|importStack| - 1] == p
      requires |progress| == |importStack| && progress[|progress| - 1] == 0
      modifies this
      ensures Valid(entry) && importStack == old(importStack)
      ensures progress == old(progress)[|importStack| - 1 := |items|]
      ensures old(errors) <= errors && old(order) <= order
      ensures errors == [] ==> Imported(fs, p, |items|, order)
      decreases Unopened(), 2
    {
      ghost var n := |importStack| - 1;
      var i := 0;
      while i < |items|
        invariant 0 <= i <= |items| && Valid(entry) && importStack == old(importStack)
        invariant progress == old(progress)[n := i]
        invariant old(errors) <= errors && old(order) <= order
        invariant errors == [] ==> Imported(fs, p, i, order)
      {
        ExtractItem(items[i], i, p, entry);
        i := i + 1;
      }
    }

    /** One turn of the loop over the items of a file. */
    method ExtractItem(item: Item, i: nat, p: Path, ghost entry: Path)
      requires Valid(entry) && IsParsed(fs, p) && i < |fs[p].items| && item == fs[p].items[i]
      requires importStack != [] && importStack[|importStack| - 1] == p
      requires |progress| == |importStack| && progress[|progress| - 1] == i
      requires errors == [] ==> Imported(fs, p, i, order)
      modifies this
      ensures Valid(entry) && importStack == old(importStack)
      ensures progress == old(progress)[|importStack| - 1 := i + 1]
      ensures old(errors) <= errors && old(order) <= order
      ensures errors == [] ==> Imported(fs, p, i + 1, order)
      decreases Unopened(), 1
    {
      hide Inv, Layered, InOrder, Told;
      InvStack(fs, entry, Now());
      match item {
        case Import(Directory) =>
          UnsoundTop(fs, entry, Now());
          TopIsReachable(fs, entry, Now());
          Report(DirectoryError(p), entry);
          AdvanceStep(fs, entry, Now());
        case Import(File(q)) =>
          assert ImportsAt(fs, p, i, q);
          ProcessFile(q, entry);
          AdvanceStep(fs, entry, Now());
        case Declaration(_) =>
          DeclareStep(fs, entry, Now());
          declarations := declarations + [Entry(p, i)];
      }
      TellAdvance(fs, entry, importStack, progress, order, errors);
      progress := progress[|progress| - 1 := i + 1];
    }

    /** resolve: it succeeds exactly when all files reachable from the entry file read, parse, import no
        bare directory and do not import each other in a circle. On success every declaration of every
        reachable file is listed once, after everything its preceding imports bring in. The errors are exactly
        those of the reachable files: each missing, each unparsable one and each import of a bare directory is
        reported, and a circle if and only if there is one; each reported circle is one. */
    method Resolve(entry: Path) returns (r: Resolved)
      modifies this
      ensures r.success <==> Resolvable(fs, entry)
      ensures r.success <==> r.errors == []
      ensures r.success ==> NoDup(r.declarations) && InOrder(fs, r.declarations)
      ensures r.success ==> forall e :: e in r.declarations <==> IsDeclaration(fs, e) && Reaches(fs, entry, e.file)
      ensures !r.success ==> r.declarations == []
      ensures Exact(fs, entry, r.errors)
    {
      importStack, processed, declarations, errors := [], {}, [], [];
      progress, order := [], [];
      ProcessFile(entry, entry);
      Finished(fs, entry, Now());
      ErrorsAreExact(fs, entry, order, errors);
      r := Resolved(errors == [], if errors == [] then declarations else [], errors);
    }
  }

  lemma CircleIsTrue(fs: FileSystem, entry: Path, st: State, p: Path)
    requires StackOk(fs, entry, st) && Next(fs, entry, st, p) && p in st.stack
    ensures EndsInCircle(fs, entry, st.stack + [p])
  {
    var c := st.stack + [p];
    forall x | 0 <= x < |c| - 1 ensures Edge(fs, c[x], c[x + 1]) {
      if x + 1 < |c| - 1 {
        assert Edge(fs, st.stack[x], st.stack[x + 1]);
      }
    }
    var k :| 0 <= k < |st.stack| && st.stack[k] == p;
    assert c[k] == c[|c| - 1];
  }

  lemma TopIsReachable(fs: FileSystem, entry: Path, st: State)
    requires StackOk(fs, entry, st) && st.stack != []
    ensures Reaches(fs, entry, ImportSearch.Top(st))
  {
    assert Joins(fs, st.stack, entry, ImportSearch.Top(st));
  }

  lemma TopNotProcessed(fs: FileSystem, entry: Path, st: State)
    requires StackOk(fs, entry, st) && st.stack != []
    ensures ImportSearch.Top(st) !in st.order
  {}

  lemma InvStack(fs: FileSystem, entry: Path, st: State)
    requires Inv(fs, entry, st)
    ensures StackOk(fs, entry, st)
  {}

  /** What the search has established when the stack is empty again. */
  lemma Finished(fs: FileSystem, entry: Path, st: State)
    requires Inv(fs, entry, st) && st.stack == [] && (!st.failed ==> entry in st.order)
    ensures !st.failed <==> Resolvable(fs, entry)
    ensures !st.failed ==>
      && NoDup(st.decls) && InOrder(fs, st.decls)
      && forall e :: e in st.decls <==> IsDeclaration(fs, e) && Reaches(fs, entry, e.file)
  {
    if !st.failed {
      forall p | Reaches(fs, entry, p) ensures p in st.order && IsSound(fs, p) && !OnCycle(fs, p) {
        LayeredIsClosed(fs, st.order, entry, p);
      }
    }
  }
}
