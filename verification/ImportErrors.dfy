/** The errors that the search reports: each of them is true, and nothing that is wrong stays unreported. */
module ImportErrors {
  import opened Sequences
  import opened ImportGraph

  datatype ImportError =
    | Circular(cycle: seq<Path>)
    | FileError(file: Path)
    | ParseError(file: Path)
    | DirectoryError(file: Path)

  // ----- what the errors say -----

  ghost predicate CannotRead(fs: FileSystem, entry: Path, f: Path) {
    Reaches(fs, entry, f) && (f !in fs || fs[f].Unreadable?)
  }

  ghost predicate CannotParse(fs: FileSystem, entry: Path, f: Path) {
    Reaches(fs, entry, f) && f in fs && fs[f].Unparsable?
  }

  ghost predicate ImportsDirectory(fs: FileSystem, entry: Path, f: Path) {
    Reaches(fs, entry, f) && IsParsed(fs, f) && Import(Directory) in fs[f].items
  }

  /** An import chain from the entry file that ends where it has been before. */
  ghost predicate EndsInCircle(fs: FileSystem, entry: Path, c: seq<Path>) {
    IsPath(fs, c) && c[0] == entry && exists k :: 0 <= k < |c| - 1 && c[k] == c[|c| - 1]
  }

  ghost predicate TrueError(fs: FileSystem, entry: Path, e: ImportError) {
    match e
    case Circular(c) => EndsInCircle(fs, entry, c)
    case FileError(f) => CannotRead(fs, entry, f)
    case ParseError(f) => CannotParse(fs, entry, f)
    case DirectoryError(f) => ImportsDirectory(fs, entry, f)
  }

  ghost predicate SomeCircle(fs: FileSystem, entry: Path) {
    exists f :: Reaches(fs, entry, f) && OnCycle(fs, f)
  }

  /** The errors are exactly those of the files that can be reached. */
  ghost predicate Exact(fs: FileSystem, entry: Path, errors: seq<ImportError>) {
    && (forall f :: FileError(f) in errors <==> CannotRead(fs, entry, f))
    && (forall f :: ParseError(f) in errors <==> CannotParse(fs, entry, f))
    && (forall f :: DirectoryError(f) in errors <==> ImportsDirectory(fs, entry, f))
    && (forall c :: Circular(c) in errors ==> EndsInCircle(fs, entry, c))
    && (HasCircle(errors) <==> SomeCircle(fs, entry))
  }

  // ----- what has been told so far -----

  predicate HasCircle(errors: seq<ImportError>) {
    exists i :: 0 <= i < |errors| && errors[i].Circular?
  }

  predicate Reported(f: Path, errors: seq<ImportError>) {
    FileError(f) in errors || ParseError(f) in errors
  }

  /** A file has been processed before, is known to be bad, or is open or processed while a circle is known. */
  predicate Settled(q: Path, earlier: seq<Path>, known: set<Path>, errors: seq<ImportError>) {
    q in earlier || Reported(q, errors) || (HasCircle(errors) && q in known)
  }

  /** A file that is processed, or that the last error is about, is settled. */
  lemma NowSettled(p: Path, stack: seq<Path>, order: seq<Path>, errors: seq<ImportError>)
    requires p in order || (errors != [] && var e := errors[|errors| - 1];
               e == FileError(p) || e == ParseError(p) || (e.Circular? && p in stack))
    ensures Settled(p, order, Known(stack, order), errors)
  {
    if p !in order {
      assert errors[|errors| - 1] in errors;
    }
  }

  /** Item `i` of `p` has been handled. */
  predicate Met(fs: FileSystem, p: Path, i: nat, earlier: seq<Path>, known: set<Path>, errors: seq<ImportError>) {
    IsParsed(fs, p) && i < |fs[p].items| ==>
      match fs[p].items[i]
      case Import(Directory) => DirectoryError(p) in errors
      case Import(File(q)) => Settled(q, earlier, known, errors)
      case Declaration(_) => true
  }

  function Known(stack: seq<Path>, order: seq<Path>): set<Path> {
    set p | p in stack + order
  }

  /** Every handled item of the open and of the processed files has been met, and all errors are true. */
  ghost predicate Told(fs: FileSystem, entry: Path, stack: seq<Path>, progress: seq<nat>, order: seq<Path>,
                       errors: seq<ImportError>)
  {
    && (forall i :: 0 <= i < |errors| ==> TrueError(fs, entry, errors[i]))
    && NoDup(order) && (forall k :: 0 <= k < |order| ==> IsParsed(fs, order[k]))
    && |progress| == |stack|
    && (forall k, i: nat :: 0 <= k < |stack| && i < progress[k] ==>
          Met(fs, stack[k], i, order, Known(stack, order), errors))
    && (forall k, i: nat :: 0 <= k < |order| ==> Met(fs, order[k], i, order[..k], Known(stack, order), errors))
  }

  lemma MetStays(fs: FileSystem, p: Path, i: nat, earlier: seq<Path>, known: set<Path>, errors: seq<ImportError>,
                 earlier': seq<Path>, known': set<Path>, errors': seq<ImportError>)
    requires Met(fs, p, i, earlier, known, errors) && earlier <= earlier' && known <= known' && errors <= errors'
    ensures Met(fs, p, i, earlier', known', errors')
  {
    assert forall q :: q in earlier ==> q in earlier';
    assert forall e :: e in errors ==> e in errors';
    if HasCircle(errors) {
      var k :| 0 <= k < |errors| && errors[k].Circular?;
      assert errors'[k].Circular?;
    }
  }

  lemma TellOpen(fs: FileSystem, entry: Path, stack: seq<Path>, progress: seq<nat>, order: seq<Path>,
                 errors: seq<ImportError>, p: Path)
    requires Told(fs, entry, stack, progress, order, errors)
    ensures Told(fs, entry, stack + [p], progress + [0], order, errors)
  {
    hide TrueError, Met, NoDup;
    var known, known' := Known(stack, order), Known(stack + [p], order);
    forall k, i: nat | 0 <= k < |stack + [p]| && i < (progress + [0])[k]
      ensures Met(fs, (stack + [p])[k], i, order, known', errors)
    {
      MetStays(fs, stack[k], i, order, known, errors, order, known', errors);
    }
    forall k, i: nat | 0 <= k < |order| ensures Met(fs, order[k], i, order[..k], known', errors) {
      MetStays(fs, order[k], i, order[..k], known, errors, order[..k], known', errors);
    }
  }

  lemma TellAdvance(fs: FileSystem, entry: Path, stack: seq<Path>, progress: seq<nat>, order: seq<Path>,
                    errors: seq<ImportError>)
    requires Told(fs, entry, stack, progress, order, errors) && stack != []
    requires Met(fs, stack[|stack| - 1], progress[|stack| - 1], order, Known(stack, order), errors)
    ensures Told(fs, entry, stack, progress[|stack| - 1 := progress[|stack| - 1] + 1], order, errors)
  {
    hide TrueError, Met, NoDup, Known;
  }

  lemma TellClose(fs: FileSystem, entry: Path, stack: seq<Path>, progress: seq<nat>, order: seq<Path>,
                  errors: seq<ImportError>)
    requires Told(fs, entry, stack, progress, order, errors) && stack != []
    requires var p := stack[|stack| - 1]; IsParsed(fs, p) && p !in order && progress[|stack| - 1] == |fs[p].items|
    ensures var n := |stack| - 1; Told(fs, entry, stack[..n], progress[..n], order + [stack[n]], errors)
  {
    hide TrueError, Settled;
    var n := |stack| - 1;
    var p, order' := stack[n], order + [stack[n]];
    assert stack == stack[..n] + [p];
    assert Known(stack[..n], order') == Known(stack, order);
    var known := Known(stack, order);
    NoDupAppend(order, [p]);
    forall k, i: nat | 0 <= k < n && i < progress[k] ensures Met(fs, stack[k], i, order', known, errors) {
      MetStays(fs, stack[k], i, order, known, errors, order', known, errors);
    }
    forall k, i: nat | 0 <= k < |order'| ensures Met(fs, order'[k], i, order'[..k], known, errors) {
      if k < |order| {
        assert order'[..k] == order[..k];
        assert Met(fs, order[k], i, order[..k], known, errors);
      } else {
        assert order'[..k] == order;
        assert i < progress[n] ==> Met(fs, stack[n], i, order, known, errors);
      }
    }
  }

  lemma TellError(fs: FileSystem, entry: Path, stack: seq<Path>, progress: seq<nat>, order: seq<Path>,
                  errors: seq<ImportError>, e: ImportError)
    requires Told(fs, entry, stack, progress, order, errors) && TrueError(fs, entry, e)
    ensures Told(fs, entry, stack, progress, order, errors + [e])
  {
    hide TrueError, Met, NoDup, Known;
    var known := Known(stack, order);
    forall k, i: nat | 0 <= k < |stack| && i < progress[k] ensures Met(fs, stack[k], i, order, known, errors + [e]) {
      MetStays(fs, stack[k], i, order, known, errors, order, known, errors + [e]);
    }
    forall k, i: nat | 0 <= k < |order| ensures Met(fs, order[k], i, order[..k], known, errors + [e]) {
      MetStays(fs, order[k], i, order[..k], known, errors, order[..k], known, errors + [e]);
    }
  }

  // ----- at the end -----

  lemma TailPath(fs: FileSystem, s: seq<Path>, p: Path, q: Path)
    requires Joins(fs, s, p, q) && |s| > 1
    ensures Edge(fs, p, s[1]) && Joins(fs, s[1..], s[1], q)
  {
    assert forall x :: 0 <= x < |s| - 1 ==> s[1..][x] == s[x + 1];
    forall x | 0 <= x < |s| - 2 ensures Edge(fs, s[1..][x], s[1..][x + 1]) {
      assert Edge(fs, s[x + 1], s[x + 2]);
    }
  }

  /** What a processed file imports has been processed or reported, and processed before unless a circle is known. */
  lemma ImportMet(fs: FileSystem, entry: Path, order: seq<Path>, errors: seq<ImportError>, k: nat, q: Path)
    requires Told(fs, entry, [], [], order, errors) && k < |order| && Edge(fs, order[k], q)
    ensures q in order || Reported(q, errors)
    ensures !HasCircle(errors) ==> q in order[..k] || Reported(q, errors)
  {
    var i: nat :| ImportsAt(fs, order[k], i, q);
    assert Met(fs, order[k], i, order[..k], Known([], order), errors);
    assert q in order[..k] ==> q in order;
  }

  lemma {:induction false} ReachedIsTold(fs: FileSystem, entry: Path, order: seq<Path>, errors: seq<ImportError>,
                                         s: seq<Path>, p: Path, q: Path)
    requires Told(fs, entry, [], [], order, errors) && (p in order || Reported(p, errors)) && Joins(fs, s, p, q)
    ensures q in order || Reported(q, errors)
    decreases |s|
  {
    hide Told, Reported, Joins;
    if |s| > 1 {
      TailPath(fs, s, p, q);
      ReportedIsBad(fs, entry, [], [], order, errors, p);
      var k :| 0 <= k < |order| && order[k] == p;
      ImportMet(fs, entry, order, errors, k, s[1]);
      ReachedIsTold(fs, entry, order, errors, s[1..], s[1], q);
    } else {
      OnePath(fs, s, p, q);
    }
  }

  lemma OnePath(fs: FileSystem, s: seq<Path>, p: Path, q: Path)
    requires Joins(fs, s, p, q) && |s| <= 1
    ensures p == q
  {}

  lemma ReportedIsBad(fs: FileSystem, entry: Path, stack: seq<Path>, progress: seq<nat>, order: seq<Path>,
                      errors: seq<ImportError>, p: Path)
    requires Told(fs, entry, stack, progress, order, errors)
    ensures Reported(p, errors) ==> !IsParsed(fs, p)
    ensures forall e :: e in errors ==> TrueError(fs, entry, e)
  {
    hide NoDup, Met, Reaches;
    forall e | e in errors ensures TrueError(fs, entry, e) {}
    assert CannotRead(fs, entry, p) ==> !IsParsed(fs, p);
    assert CannotParse(fs, entry, p) ==> !IsParsed(fs, p);
  }

  /** Where no circle has been reported, imports lead only to files processed before. */
  lemma {:induction false} Descends(fs: FileSystem, entry: Path, order: seq<Path>, errors: seq<ImportError>, k: nat,
                                    s: seq<Path>, q: Path)
    requires Told(fs, entry, [], [], order, errors) && !HasCircle(errors) && k < |order|
    requires Joins(fs, s, order[k], q) && IsParsed(fs, q)
    ensures exists m :: 0 <= m <= k && order[m] == q && (|s| >= 2 ==> m < k)
    decreases |s|
  {
    hide Told, Reported, HasCircle;
    if |s| > 1 {
      TailPath(fs, s, order[k], q);
      ImportMet(fs, entry, order, errors, k, s[1]);
      ReportedIsBad(fs, entry, [], [], order, errors, s[1]);
      assert IsParsed(fs, s[1]) by {
        if |s| > 2 {
          TailPath(fs, s[1..], s[1], q);
        }
      }
      var m :| 0 <= m < k && order[m] == s[1];
      Descends(fs, entry, order, errors, m, s[1..], q);
    }
  }

  lemma CircleIsReported(fs: FileSystem, entry: Path, order: seq<Path>, errors: seq<ImportError>)
    requires Told(fs, entry, [], [], order, errors) && (entry in order || Reported(entry, errors))
    requires SomeCircle(fs, entry)
    ensures HasCircle(errors)
  {
    if !HasCircle(errors) {
      var f :| Reaches(fs, entry, f) && OnCycle(fs, f);
      var s :| Joins(fs, s, entry, f);
      var c :| |c| >= 2 && Joins(fs, c, f, f);
      ReachedIsTold(fs, entry, order, errors, s, entry, f);
      TailPath(fs, c, f, f);
      ReportedIsBad(fs, entry, [], [], order, errors, f);
      var k :| 0 <= k < |order| && order[k] == f;
      Descends(fs, entry, order, errors, k, c, f);
      assert false;
    }
  }

  lemma CircleIsThere(fs: FileSystem, entry: Path, c: seq<Path>)
    requires EndsInCircle(fs, entry, c)
    ensures SomeCircle(fs, entry)
  {
    var k :| 0 <= k < |c| - 1 && c[k] == c[|c| - 1];
    assert Joins(fs, c, entry, c[k]) && Reaches(fs, entry, c[k]);
    assert forall x :: 0 <= x < |c| - k ==> c[k..][x] == c[k + x];
    forall x | 0 <= x < |c[k..]| - 1 ensures Edge(fs, c[k..][x], c[k..][x + 1]) {
      assert Edge(fs, c[k + x], c[k + x + 1]);
    }
    assert |c[k..]| >= 2 && Joins(fs, c[k..], c[k], c[k]);
    assert OnCycle(fs, c[k]);
  }

  /** When the search is over, the errors are exact: each unreadable or unparsable file that can be reached and each
      file with an import of a bare directory is reported, nothing else is, and a circle is reported if and only if there
      is one. */
  lemma ErrorsAreExact(fs: FileSystem, entry: Path, order: seq<Path>, errors: seq<ImportError>)
    requires Told(fs, entry, [], [], order, errors) && (entry in order || Reported(entry, errors))
    ensures Exact(fs, entry, errors)
  {
    hide Told, Reaches, OnCycle, IsPath;
    ReportedIsBad(fs, entry, [], [], order, errors, entry);
    forall f | Reaches(fs, entry, f) ensures f in order || Reported(f, errors) {
      ReachedByPath(fs, entry, order, errors, f);
    }
    forall f | CannotRead(fs, entry, f) ensures FileError(f) in errors {
      OrderIsParsed(fs, entry, order, errors, f);
      assert ParseError(f) in errors ==> TrueError(fs, entry, ParseError(f));
    }
    forall f | CannotParse(fs, entry, f) ensures ParseError(f) in errors {
      OrderIsParsed(fs, entry, order, errors, f);
      assert FileError(f) in errors ==> TrueError(fs, entry, FileError(f));
    }
    forall f | ImportsDirectory(fs, entry, f) ensures DirectoryError(f) in errors {
      ReportedIsBad(fs, entry, [], [], order, errors, f);
      DirectoryIsTold(fs, entry, order, errors, f);
    }
    if HasCircle(errors) {
      var i :| 0 <= i < |errors| && errors[i].Circular?;
      assert errors[i] in errors;
      CircleIsThere(fs, entry, errors[i].cycle);
    }
    if SomeCircle(fs, entry) {
      CircleIsReported(fs, entry, order, errors);
    }
  }

  lemma ReachedByPath(fs: FileSystem, entry: Path, order: seq<Path>, errors: seq<ImportError>, f: Path)
    requires Told(fs, entry, [], [], order, errors) && (entry in order || Reported(entry, errors)) && Reaches(fs, entry, f)
    ensures f in order || Reported(f, errors)
  {
    var s :| Joins(fs, s, entry, f);
    ReachedIsTold(fs, entry, order, errors, s, entry, f);
  }

  lemma OrderIsParsed(fs: FileSystem, entry: Path, order: seq<Path>, errors: seq<ImportError>, f: Path)
    requires Told(fs, entry, [], [], order, errors)
    ensures f in order ==> IsParsed(fs, f)
  {}

  lemma DirectoryIsTold(fs: FileSystem, entry: Path, order: seq<Path>, errors: seq<ImportError>, f: Path)
    requires Told(fs, entry, [], [], order, errors) && f in order
    ensures IsParsed(fs, f) && Import(Directory) in fs[f].items ==> DirectoryError(f) in errors
  {
    var k :| 0 <= k < |order| && order[k] == f;
    if Import(Directory) in fs[f].items {
      var i :| 0 <= i < |fs[f].items| && fs[f].items[i] == Import(Directory);
      assert Met(fs, order[k], i, order[..k], Known([], order), errors);
    }
  }
}
