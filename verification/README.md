# truk: verified model

truk is a small compiler (tokenizer, parser, import resolver, type checker, C emitter) with a C runtime. This
project models the parts of it whose correctness is hard to see and proves what they are for. Code that updates
fields or arrays is modelled by classes and methods with loops, proved against functions; code made of recursion
is modelled by functions; the theorems are lemmas about those functions.

`dafny verify dfyconfig.toml` checks everything. `Options`, `Sequences` and `Arithmetic` hold what several parts
share.

## What is proved

**Defer lowering** (`DeferSyntax`, `DeferSource`, `DeferTarget`, `DeferLaws`, `DeferWeaving`, `DeferProof`,
`DeferEmitter`, `DeferReading`, `DeferRuns`, `DeferPolicies`, `ControlFlow`). Source statements have a big-step meaning that keeps
pending deferred code scope by scope; C statements have one without. Conditions, expressions and actions are
arbitrary functions of an arbitrary state and of what their names denote, and loops are bounded by a number that every
theorem quantifies over. The bodies are those in which deferred code has no control flow and no `defer` directly in
its braces, an `else` is a block or another `if`, and a match has a case first and its one wildcard last. For these the
emitted program ends in the same state with the same outcome as the source, or both run for ever, as long as every
expression means the same wherever it is written. The statement visitors with their stack of scopes write exactly the
text of that program, and reading the text as C gives the program back. The meaning of the source is the documented
one (docs/language/defer.md:185-290): a `break` or `continue` does not run what the loop body itself has deferred,
and a single returned expression that is no call is computed after the deferred code. For the stricter reading, in
which both are otherwise, two conditions under which weaving keeps it as well are proved sufficient, and two programs
show that neither can be dropped.

**Names in deferred code** (`DeferNames`, `DeferScoping`, `DeferBinding`, `DeferFree`, `DeferCopies`, `DeferCapture`,
`DeferShadowing`).
Deferred code is written again as text in inner scopes, and identifiers are written as they are, so a declaration
between a name and what it denoted at the `defer` captures it. That an expression means the same wherever it is written
is therefore not true of every program: `var x = 1; defer x = x + 10; { var x = 5; return x; }` returns 15 in C where
the source returns 5. For every body, the emitted C binds every name as the source does if and only if no free name of
a deferred code is declared behind the `defer`, in its own scope or in one open where a copy is written, and no
initialiser names what it declares (C sees a declarator in its own initialiser, truk does not). Under this condition
the text, read as C and resolved as C does, runs like the source on states of scoped variables; a captured copy that is
never reached changes no run, so for the meaning the condition is sufficient. Declarations are told apart by an identity
that none of the declarations seen where they stand has.

**Hash map** (`HashMapModel`, `HashMap`). Chained buckets on the heap, growth by doubling, removal
through the link that points to a node, and the resumable iterator, against a finite map. Whether memory can be had is
a parameter of every operation that allocates; with memory at hand a new map takes any 2^30 different keys.

**Import resolver** (`ImportGraph`, `ImportSearch`, `ImportErrors`, `ImportResolver`). The depth-first search over files
with its stack of open files, against reachability and circles in the import graph. What it reports is true and complete,
also behind the first error.

**Expressions** (`ExprSyntax`, `ExprGrammar`, `ExprParser`, `ExprPrint`, `ExprRoundTrip`, `ExprMinimal`, `ExprEmitted`,
`ExprSpelling`, `ExprLaws`, `ExprErrors`, `ExprCompound`, `ExprMeaning`). The token cursor with one method for each rule is proved to compute the grammar functions; printing
with minimal parentheses and parsing is the identity, for truk's ladder and for C's; what the emitter writes reads back
as the same tree under both; a compound assignment, rewritten with a copy of its target, does what it is meant to do
exactly when its right-hand side leaves the sum and the place as they are. What the printer never writes is related to
what it writes, or shown to be rejected: compound assignments, arrows, closing commas, missing return types, and the
places where the grammar gives up. Operators are told by how they are written, and their levels by the rows of the
grammar document and of the C standard.
The ten methods parse_logical_or to parse_multiplicative are one method with the level as a parameter. The grammar
document lets both operands of `*`, `/` and `%` be casts (docs/language/grammar.md:154); the code reads the right one
as a unary expression, and so does the model.

**Lambda captures** (`CaptureScopes`, `CaptureSites`, `CaptureCollector`, `CaptureValidator`, `CaptureExamples`). The two
passes report exactly the uses for which, along the chain of functions, lambdas and blocks around them in the text, the
nearest one that declares the name by a parameter, variable, let or function lies outside the innermost lambda. Scopes know all
their names, early and late, but no consts, while C looks names up in the order of the text; and the static function of a
lambda stands in the text before all definitions of functions and global variables, where only what C headers and forward
declarations declare can be seen (libs/emitc/src/emitter.cpp:97-204 and 279-283). So an accepted use survives the move to
a static function if and only if its lambda does not declare the name later, it is no const of an enclosing function, and
it is no global variable or constant, main function or test. For each of the three a program is given that is accepted
although its name is lost. The documentation calls global symbols accessible everywhere
(docs/compiler-internals/typechecker.md:225); the code does not make global variables so.

**Tokenizer and error display** (`Lexing`, `LexForms`, `LexNumbers`, `Tokenizer`, `LexCoverage`, `LexRespacing`,
`ErrorDisplay`, `Caret`, `Utf8`). Tokens cover the source and are as long as they can be; re-spacing keeps them, for every source without restriction; the two independent
line and column counters agree exactly when no carriage return stands alone; the caret is under the character exactly
when the text before it on its line is ASCII, while the counter itself counts the characters of UTF-8 text.

**Scoped store** (`ScopedStore`, `Memory`). The contexts in their fixed slots refine a bounded stack of maps, of which each
operation is described by what later lookups find. A key that
is hoisted twice loses its value: the exact condition is proved.

**Type nodes** (`TypeNodes`). Every accepted type comes back from the checker as it was, exactly when no function type
in it is variadic; the accepted types and map keys are characterised. The message about invalid keys names numbers,
bool and pointers to u8 or i8 (libs/validation/src/typecheck.cpp:186-192); pointers to arrays of them are accepted too.

## Model

| member | source | states |
|---|---|---|
| DeferProof.WeavingKeepsMeaning | libs/emitc/src/emitter.cpp:1349-1580 | For every body of the shape described above whose names are resolved (an expression means the same wherever it is written), every environment, start state and loop bound, the woven program without defer has the same result as the source with pending defers per scope |
| DeferProof.CodeFallsThrough | libs/validation/src/typecheck.cpp:1634-1642 | Deferred code that the checker accepts falls through: running it never returns, breaks or continues |
| DeferProof.SimScope | libs/emitc/src/emitter.cpp:1710-1725 | Inside any stack of open scopes, the woven statements of a scope do what the source scope does and then what the way out unwinds |
| DeferProof.SimLoop | libs/emitc/src/emitter.cpp:1363-1448 | The same for loops, for any number of iterations, with the deferred code of the body run at the end of each normal iteration |
| DeferProof.SimReturn | libs/emitc/src/emitter.cpp:1450-1501 | A return runs the deferred code of all open scopes, innermost first; calls and tuples are computed before it, other expressions after it |
| DeferProof.SimToLoop | libs/emitc/src/emitter.cpp:1503-1525 | Before break and continue runs exactly the deferred code of the scopes inside the innermost loop scope |
| DeferRuns.WeavingKeepsTermination | libs/emitc/src/emitter.cpp:1349-1580 | For a body whose names are resolved, emitted program and source end in the same way or both run for ever, and there is only one way to end |
| DeferRuns.LastInFirstOut | libs/emitc/src/emitter.cpp:2025-2047 | In a scope of any kind, inside any open scopes, that registers any number of deferred codes, single or braced, and goes on with any other statements: the emitted statements run the rest of the scope, then, unless a break or continue leaves a loop body, each code once in the reverse order of registration, then what the exit unwinds |
| DeferRuns.ValueComesFirst | libs/emitc/src/emitter.cpp:1450-1501 | In the text of a return of a value inside any scopes the value is computed before all deferred code if and only if it is a call or several values, or nothing is pending |
| DeferRuns.VariadicEnds | libs/emitc/src/emitter.cpp:724-752 | In a variadic function the list of arguments is ended if and only if control falls off the end of the body: a return leaves it open |
| DeferRuns.LoopExitIsComplete | libs/emitc/src/emitter.cpp:1503-1525 | A break or continue is preceded by all deferred code up to and including the loop body's own if and only if the loop body has registered none |
| DeferRuns.MatchIsGrammatical | libs/emitc/src/emitter.cpp:1533-1583 | For a match with one wildcard the emitted chain of clauses is one that C accepts if and only if a case comes first and the wildcard last |
| DeferLaws.ForIsWhile | libs/emitc/src/emitter.cpp:1363-1448 | In the meaning of the emitted code a for loop is its initialiser and a while loop whose body ends with the step, for every body that does not continue |
| DeferLaws.WhileOnceIsIf | libs/emitc/src/emitter.cpp:1363-1386 | A while loop whose body ends with a break is an if |
| DeferLaws.ForeverIsStuck | libs/emitc/src/emitter.cpp:1388-1448 | A for loop without a condition whose body is one action never ends, whatever the bound |
| DeferLaws.ValuesInOrder | libs/emitc/src/emitter.cpp:1477-1497 | Several returned values are computed once each, from left to right |
| DeferPolicies.WeavingKeepsStrictMeaning | libs/emitc/src/emitter.cpp:1450-1525 | The strict meaning is kept too when no break or continue leaves pending code of its loop body and every returned plain expression is independent of the code pending at that return |
| DeferPolicies.BreakSkipsLoopDefers | libs/emitc/src/emitter.cpp:1503-1513 | A loop whose body defers and breaks: the emitted program never runs the deferred action, the strict meaning does |
| DeferPolicies.ReturnIsComputedLast | libs/emitc/src/emitter.cpp:1471-1475 | A function whose returned value differs because it is computed after the deferred action |
| DeferEmitter.Emitter.Visit | libs/emitc/src/emitter.cpp:1349-1580 | A statement visitor appends the text of the woven statement and leaves the scope stack as it was; a defer appends nothing and registers its code in the innermost scope |
| DeferEmitter.Emitter.VisitReturn | libs/emitc/src/emitter.cpp:1450-1501 | The text of a return: saved value or not, deferred code of all scopes, return |
| DeferEmitter.Emitter.VisitMatch | libs/emitc/src/emitter.cpp:1533-1583 | The text of a match: scrutinee, clauses with if, else if and else, braces around arms |
| DeferEmitter.Emitter.VisitScope | libs/emitc/src/emitter.cpp:1710-1725 | Pushing a scope, emitting its statements and its deferred code and popping it gives the text of the woven scope |
| DeferEmitter.Emitter.EmitScopeDefers | libs/emitc/src/emitter.cpp:2025-2047 | The loop over one scope writes its deferred code, last registered first, and changes no scope |
| DeferEmitter.Emitter.EmitAllRemaining | libs/emitc/src/emitter.cpp:2049-2061 | Writes the deferred code of all scopes, innermost first |
| DeferEmitter.Emitter.EmitToLoop | libs/emitc/src/emitter.cpp:1503-1525 | Writes the deferred code of the scopes inside the innermost loop scope |
| DeferEmitter.Emitter.FindEnclosingLoopScope | libs/emitc/src/emitter.cpp:2063-2074 | Finds the innermost loop scope, or none |
| DeferEmitter.Emitter.EmitFunctionBody | libs/emitc/src/emitter.cpp:584-803 | The text between the braces of a function is the text of its woven body, in a variadic function between the lines for its arguments, and no scope is left open |
| DeferEmitter.SameStmt | libs/emitc/src/emitter.cpp:2025-2047 | Code without control flow is written the same in whatever scopes it is emitted, apart from the form of index expressions and built-in calls (see below), so deferred blocks may be emitted late; what its names denote there is the subject of DeferCapture.EveryCopyExactly |
| DeferReading.StmtReadsBack | libs/emitc/src/emitter.cpp:1349-1583 | The emitted text of any C statement whose matches are chains if, else if, else is that statement when it is read as C, with each else at the nearest if; the reader rejects all other chains |
| DeferReading.EmittedTextIsTheProgram | libs/emitc/src/emitter.cpp:584-803 | The text written for any function body, read as C, is the woven program, in which every match is a chain that C accepts |
| DeferBinding.ListCommutes | libs/emitc/src/emitter.cpp:1710-1725 | Inside any open scopes, resolving the names of the woven statements as C does gives the weaving of the statements resolved as in the source if and only if each written piece binds its names alike |
| DeferFree.CodeAlike | libs/validation/src/typecheck.cpp:1634-1642 | The names of a deferred code denote the same in two places if and only if its free names do |
| DeferCopies.CodeSplits | libs/emitc/src/emitter.cpp:2025-2047 | A copy agrees with what its code meant at the defer if and only if its free names do and it would agree if it were written at the defer |
| DeferCapture.EveryCopyExactly | libs/emitc/src/emitter.cpp:2025-2061 | For every body and every written copy of its deferred code: the copy binds every name as at its defer if and only if no free name of the code is declared behind the defer, in its own scope or in one open at the copy |
| DeferCapture.DeclarationKeeps | libs/emitc/src/emitter.cpp:1041-1140 | An initialiser written behind its own declarator binds its names as in the source if and only if it does not name what it declares |
| DeferScoping.DeclarationIsSeen | libs/validation/src/typecheck.cpp:1347-1389 | Behind a declaration each name that it declares denotes it, and every other name what it did before |
| DeferScoping.InitialiserIsInFront | libs/emitc/src/emitter.cpp:1388-1448 | The names of a for loop resolve as those of its initialiser followed by the loop without it |
| DeferCapture.NamesAreKeptExactly | libs/emitc/src/emitter.cpp:1349-1580 | For every body the emitted C binds every name as the source does if and only if no copy of deferred code has a captured name and no initialiser names what it declares |
| DeferCapture.EmittedTextMeansTheSource | libs/emitc/src/emitter.cpp:1349-1580 | Under that condition, and with every expression written in the form its names ask for (see below), the emitted text, read as C and resolved as C does, runs like the source with its names resolved, for every state of variables and every loop bound |
| DeferShadowing.CapturedName | libs/emitc/src/emitter.cpp:1877-1879 | A function whose deferred action changes the outer variable in the source, which returns 5, and the inner one in C, which returns 15 |
| DeferShadowing.CaptureCanBeUnreached | libs/emitc/src/emitter.cpp:1450-1501 | A captured copy behind a return changes no run, so that the condition is exact for the bindings and sufficient for the meaning |
| DeferShadowing.OwnInitialiser | libs/emitc/src/emitter.cpp:1132-1137 | In `var x = 1; { var x = x; return x; }` the inner variable gets the value of the outer one in the source and its own indeterminate one in C |
| ControlFlow.Checker.Visit | libs/validation/src/control_flow_checker.cpp:35-206 | The visitor with its three flags and early stop finds the first return, break or continue in the order of its traversal, and whether it is loose |
| ControlFlow.Checker.CheckNode | libs/validation/src/control_flow_checker.cpp:7-11 | A visit starts only while nothing has been found |
| ControlFlow.ControlFlowIsExact | libs/validation/src/control_flow_checker.cpp:7-206 | has_control_flow is set if and only if a return, break or continue occurs in the code |
| ControlFlow.LooseExitIsSound | libs/validation/src/control_flow_checker.cpp:61-107 | has_break_or_continue reports no loose exit that is not there |
| ControlFlow.LooseExitIsReported | libs/validation/src/control_flow_checker.cpp:61-107 | has_break_or_continue is set if and only if of all returns, breaks and continues of the code, listed in the order of the text, the first is a break or continue outside every loop |
| ControlFlow.LooseExitCanBeMissed | libs/validation/src/control_flow_checker.cpp:7-11 | It misses the break behind a return |
| ControlFlow.NoControlFlow | libs/validation/src/typecheck.cpp:2414-2422 | The test on deferred code answers yes if and only if the code has no return, break or continue |
| HashMapModel.BucketIdx | runtime/sxs/src/ds/map.c:124-126 | For a power of two, the masked hash is a bucket number and the remainder of the hash |
| HashMap.Map.GetRef | runtime/sxs/src/ds/map.c:166-181 | Finds the link that points to the node of a key if and only if the key is stored |
| HashMap.Map.Get | runtime/sxs/src/ds/map.c:198-201 | The stored value, or null |
| HashMap.Map.AddNode | runtime/sxs/src/ds/map.c:128-132 | The node becomes the first of the chain of its hash; all other chains stay |
| HashMap.Map.Resize | runtime/sxs/src/ds/map.c:134-164 | Whether or not the new bucket array can be had, the map keeps exactly its nodes and its contents, with every node in the bucket of its hash |
| HashMap.Map.Set | runtime/sxs/src/ds/map.c:203-228 | Updates the map. It succeeds if and only if the key is stored, or a node can be had and the map has room or can grow, that is, has less than 2^30 buckets and gets the memory. The number of buckets is the old one, twice it, or 1 when it was 0; otherwise the map is unchanged. A node is made only for a new key and ends in the map, or is freed again when the map cannot grow |
| HashMap.SetAll | runtime/sxs/src/ds/map.c:134-228 | With memory at hand a new map takes any sequence of up to 2^30 different keys, each with its value, and then has at least as many buckets as keys and fewer than twice as many |
| HashMap.Map.Remove | runtime/sxs/src/ds/map.c:230-239 | Removes the key from the map and frees exactly its node |
| HashMap.Map.Shape | runtime/sxs/src/ds/map.c:108-239 | Between operations: chains disjoint and without repetition, a key in the bucket of its hash and in no other, node count equal to the number of keys and at most the number of buckets, which is zero or a power of two |
| HashMap.PlacedAgain | runtime/sxs/src/ds/map.c:134-164 | Spreading the nodes of an arranged map over any power of two of buckets arranges it again |
| HashMap.Iter.constructor | runtime/sxs/src/ds/map.c:241-246 | The iterator starts at unsigned -1 without a node |
| HashMap.Map.Next | runtime/sxs/src/ds/map.c:248-263 | From any iterator position, yields the key of the first node still ahead and leaves the others ahead, or null when there is none; the bucket number wraps around |
| HashMap.Map.AllKeys | runtime/sxs/src/ds/map.c:241-263 | Iterating until null yields every stored key exactly once |
| HashMap.Map.Deinit | runtime/sxs/src/ds/map.c:183-196 | Frees every node exactly once, then the bucket array, and nothing else |
| ImportGraph.LayeredIsClosed | libs/ingestion/src/import_resolver.cpp:381-466 | In an order in which every import leads to an earlier file, everything reachable is in the order, sound, and on no circle |
| ImportSearch.CircleFound | libs/ingestion/src/import_resolver.cpp:384-393 | Meeting an open file again means that the import graph has a circle reachable from the entry file |
| ImportSearch.CloseStep | libs/ingestion/src/import_resolver.cpp:427-429 | Closing a file whose imports are processed keeps the invariant of the search |
| ImportSearch.DeclareStep | libs/ingestion/src/import_resolver.cpp:457-464 | Collecting a declaration keeps the order: everything brought in by imports above it is already there |
| ImportResolver.Resolver.ProcessFile | libs/ingestion/src/import_resolver.cpp:381-429 | Keeps the invariant of the search and the stack, terminates on every finite file system, and without errors has processed the file |
| ImportResolver.Resolver.Extract | libs/ingestion/src/import_resolver.cpp:431-466 | After the loop over the items all imports are processed and all declarations collected, or an error is recorded |
| ImportErrors.ErrorsAreExact | libs/ingestion/src/import_resolver.cpp:381-429 | When the search is over, a file is reported as missing, as unparsable or as importing a bare directory if and only if it can be reached and is so; a circle is reported if and only if there is one, and every reported chain runs from the entry file into a circle |
| ImportResolver.Resolver.Resolve | libs/ingestion/src/import_resolver.cpp:353-379 | Succeeds if and only if all reachable files read, parse, import no bare directory and lie on no circle; then every declaration of every reachable file is listed exactly once, with its file, after everything its preceding imports bring in; otherwise the errors are exactly those of the reachable files |
| ImportResolver.Finished | libs/ingestion/src/import_resolver.cpp:353-379 | What the invariant of the search says when the stack is empty again |
| ExprSyntax.CloneIsExact | libs/ingestion/src/parser.cpp:968-1028 | The copy of an expression is equal to it exactly on names, literals, index, member, dereference and binary expressions of such; otherwise there is none |
| ExprSyntax.ClonableIsFree | libs/ingestion/src/parser.cpp:968-1028 | An expression can be copied if and only if no part of it, at any depth, is a call, a cast, an assignment, an array or struct literal, or has another prefix than `*` |
| ExprSpelling.SpellingsDiffer | libs/ingestion/src/tokenize.cpp:316-507 | Two symbols written alike are the same: the tokenizer reads every symbol back from its spelling |
| ExprSpelling.OperatorTokens | libs/ingestion/src/parser.cpp:1098-1287 | The token of a binary operator is the one written as the operator, and no other token is read as it |
| ExprSpelling.CompoundTokens | libs/ingestion/src/parser.cpp:1041-1047 | A token is a compound assignment with an operator if and only if it is written as the operator followed by `=`, and the operator is one of `+`, `-`, `*`, `/`, `%` |
| ExprSpelling.LevelIsRow | docs/language/grammar.md:137-155 | The level of an operator is the number of the row that holds its spelling, in the tables of truk and of C |
| ExprParser.Parser.Advance | libs/ingestion/src/parser.cpp:95-100 | The cursor moves by one token but never past the end of the file |
| ExprParser.Parser.Match | libs/ingestion/src/parser.cpp:122-146 | Consumes a token exactly when it is the expected one |
| ExprParser.Parser.Expression | libs/ingestion/src/parser.cpp:1030-1078 | Assignment and compound assignment, right-associative: result and cursor are those of the grammar |
| ExprParser.Parser.Level | libs/ingestion/src/parser.cpp:1098-1287 | The loop of a binary level builds the left-associative tree of the grammar |
| ExprParser.Parser.CastLevel | libs/ingestion/src/parser.cpp:1080-1096 | The loop over casts, with broken types swallowed |
| ExprParser.Parser.UnaryLevel | libs/ingestion/src/parser.cpp:1289-1323 | Prefix operators, right-associative |
| ExprParser.Parser.Postfix | libs/ingestion/src/parser.cpp:1325-1369 | The loop over calls, indices and member accesses |
| ExprParser.Parser.FieldSuffix | libs/ingestion/src/parser.cpp:1344-1363 | A dot reads a field of the expression, an arrow one of what it points to |
| ExprParser.Parser.Primary | libs/ingestion/src/parser.cpp:1371-1473 | Literals, names, parentheses, array and struct literals |
| ExprParser.Parser.LooksLikeStruct | libs/ingestion/src/parser.cpp:1418-1455 | The lookahead decides by up to three tokens behind the name and puts the cursor back |
| ExprParser.Parser.ArrayLiteralRule | libs/ingestion/src/parser.cpp:1628-1648 | Array literals, with a comma that may close them |
| ExprParser.Parser.StructLiteralRule | libs/ingestion/src/parser.cpp:1650-1688 | Struct literals, with a comma that may close them |
| ExprParser.Parser.Arguments | libs/ingestion/src/parser.cpp:1591-1626 | The loop over arguments, types among them |
| ExprParser.Parser.TypeOrBroken | libs/ingestion/src/parser.cpp:73-79 | A type that cannot be parsed is swallowed and leaves the cursor where the error was |
| ExprParser.Parser.TypeRule | libs/ingestion/src/parser.cpp:514-582 | Types: result and cursor are those of the grammar |
| ExprParser.Parser.ArrayType | libs/ingestion/src/parser.cpp:584-634 | Array types, sized by an integer literal or not at all |
| ExprParser.Parser.FunctionType | libs/ingestion/src/parser.cpp:643-668 | Function types; without a return type it is void |
| ExprParser.Parser.TupleType | libs/ingestion/src/parser.cpp:670-694 | Tuple types, of at least two elements |
| ExprLaws.CompoundIsPlain | libs/ingestion/src/parser.cpp:1030-1078 | For every target that can be copied and every value, `t op= v` is read as the tree of `t = t op (v)`, with the operator written in front of the `=`; every other target is rejected |
| ExprLaws.Grouping | libs/ingestion/src/parser.cpp:1098-1287 | Of two operators between three names the one in the tighter row groups first, and in one row the left one |
| ExprLaws.Terminators | libs/ingestion/src/parser.cpp:1418-1455 | The tokens that end an expression are `;`, `,`, the three closing brackets and the end of the file |
| ExprLaws.ArrowIsDereference | libs/ingestion/src/parser.cpp:1344-1363 | `e->f` is read as the tree of `(*e).f` |
| ExprLaws.ClosingCommaInArray | libs/ingestion/src/parser.cpp:1628-1648 | An array literal with a comma behind its last element is read as the one without |
| ExprLaws.ClosingCommaInStruct | libs/ingestion/src/parser.cpp:1650-1688 | So is a struct literal |
| ExprLaws.NoClosingCommaInCall | libs/ingestion/src/parser.cpp:1591-1626 | A call with a comma behind its last argument is rejected at the parenthesis |
| ExprErrors.EmptyBraces | libs/ingestion/src/parser.cpp:1418-1455 | A name and `{}` are a struct literal in front of a token that ends an expression, and a name in front of a block otherwise |
| ExprErrors.NameBehindBrace | libs/ingestion/src/parser.cpp:1418-1455 | A name, `{` and another name start a struct literal in front of `:`; in front of `}` or `,` a value is missing; otherwise the brace opens a block |
| ExprErrors.NoReturnType | libs/ingestion/src/parser.cpp:643-668 | A function type without a return type is read as the one that returns void |
| ExprErrors.ShortTuples | libs/ingestion/src/parser.cpp:670-694 | `()` and `(T)` are rejected behind the parenthesis |
| ExprErrors.ArraySizes | libs/ingestion/src/parser.cpp:584-634 | An array size that is an expression other than one integer literal is rejected at the bracket behind it |
| ExprErrors.BrokenCast | libs/ingestion/src/parser.cpp:73-79 | A cast to something that is no type keeps its operand and consumes nothing behind the `as` |
| ExprErrors.CastBehindProduct | libs/ingestion/src/parser.cpp:1258-1287 | In `a * b as T` the `as` is left unread |
| ExprRoundTrip.TypeReadsBack | libs/ingestion/src/parser.cpp:514-694 | Every complete type, written out and parsed, is read back with exactly the tokens behind it left |
| ExprMinimal.ReadsBack | libs/ingestion/src/parser.cpp:1098-1369 | Written at a level with the parentheses that level needs, an expression is what the loop of the level starts with |
| ExprMinimal.BinaryReadsBack | libs/ingestion/src/parser.cpp:1098-1287 | Left operands need their own level, right operands one level more, and behind `*`, `/`, `%` a unary |
| ExprMinimal.PrintThenParse | libs/ingestion/src/parser.cpp:1030-1473 | Printing any expression with minimal parentheses and parsing it gives the same tree and leaves exactly the tokens behind it |
| ExprEmitted.EmittedReadsBack | libs/emitc/src/emitter.cpp:1795-1806 | The emitter's fully parenthesised text of names, literals, unary and binary operations, calls, indices and member accesses reads back as the same tree, under either ladder |
| ExprEmitted.EmittedCall | libs/emitc/src/emitter.cpp:1987-1997 | Calls, whose callee is written without parentheses of its own |
| ExprEmitted.EmittedIndex | libs/emitc/src/emitter.cpp:1919-1973 | Index expressions into arrays |
| ExprEmitted.LaddersAgreeOnEmitted | libs/emitc/src/emitter.cpp:1795-1806 | C reads what the emitter writes as the tree that truk read |
| ExprEmitted.LaddersDisagreeOnMinimal | libs/ingestion/src/parser.cpp:1126-1218 | Without these parentheses truk and C (section 6.5 of ISO/IEC 9899) read one token sequence as different trees |
| ExprCompound.CompoundIsFaithful | libs/ingestion/src/parser.cpp:1030-1078 | For the operator written in front of the `=`: a compound assignment is accepted exactly when its target can be copied, and for a right-hand side that writes nothing the tree built locates, combines and stores once, in every evaluation order that C allows |
| ExprCompound.ClonableIsQuiet | libs/ingestion/src/parser.cpp:968-1028 | A target that can be copied writes nothing, so that evaluating it twice is harmless |
| ExprMeaning.AssignedIsRead | libs/emitc/src/emitter.cpp:1622-1708 | What has been assigned to a variable is read from it afterwards, and every other variable holds what it did |
| ExprMeaning.SliceIsItsData | libs/emitc/src/emitter.cpp:1919-1973 | The elements of a slice are those that its data field points to |
| ExprCompound.RewrittenExactly | libs/ingestion/src/parser.cpp:1030-1078 | For any right-hand side, also one that writes: the tree built does what was meant if and only if the sum is the same where the target is read behind the right-hand side, and the place is the same (or both places hold the result) where it is located behind it |
| ExprCompound.UntouchedTarget | libs/ingestion/src/parser.cpp:1030-1078 | A right-hand side that leaves the target in its place and what it holds may write anything else, in every evaluation order |
| ExprCompound.StoredElsewhere | libs/ingestion/src/parser.cpp:1065-1071 | When the right-hand side moves the place and is evaluated first, the result is stored at the new place |
| ExprCompound.WritingOperandMatters | libs/ingestion/src/parser.cpp:1065-1071 | A concrete assignment for which the rewritten form differs from the intended one |
| CaptureCollector.Collector.Visit | libs/validation/src/typecheck.cpp:2591-2951 | The collector records for every scope node its kind, its parent and all its names, adds to the current scope exactly the names declared in it, and changes no other scope |
| CaptureCollector.Collector.OpenScope | libs/validation/src/typecheck.cpp:2644-2672 | A new scope below the current one, with the parameters as its names |
| CaptureCollector.LambdasExactly | libs/validation/src/typecheck.cpp:2644-2676 | The lambdas listed are exactly those that stand anywhere in the declaration, in whatever functions, lambdas and blocks |
| CaptureValidator.Validator.Search | libs/validation/src/typecheck.cpp:3167-3178 | The search outwards finds the nearest scope that declares the name |
| CaptureValidator.Validator.IsLocal | libs/validation/src/typecheck.cpp:3198-3209 | The walk outwards meets the lambda if and only if the declaring scope lies within it |
| CaptureValidator.Validator.VisitIdentifier | libs/validation/src/typecheck.cpp:3160-3219 | Reports a name if and only if its nearest declaring scope lies strictly between the innermost lambda and the global scope |
| CaptureValidator.Validator.Visit | libs/validation/src/typecheck.cpp:2981-3271 | Reports exactly the captured names of a declaration, in the order of the text, with the lambda that captures each |
| CaptureValidator.Check | libs/validation/src/typecheck.cpp:2517-2549 | Both passes over one declaration report a use of a name in a lambda if and only if, of the functions, lambdas and blocks around the use that declare the name by a parameter, variable, let or function, the nearest lies outside the innermost lambda |
| CaptureScopes.DeclaredExactly | libs/validation/src/typecheck.cpp:2591-2766 | The names recorded for a scope are those of the variables, lets and functions that stand in it, initialisers included, and no others |
| CaptureScopes.ConstsInAreMissing | libs/validation/src/typecheck.cpp:2762-2766 | What a scope declares is what is recorded for it and the names of its consts |
| CaptureScopes.SeenIsDeclared | libs/validation/src/typecheck.cpp:2591-2766 | Every name declared before a use in a scope around it is recorded for the scope, parameters included, or declared there by a const and by nothing else |
| CaptureSites.CapturesExactly | libs/validation/src/typecheck.cpp:3160-3219 | Of any declaration: the captures are exactly the uses whose nearest declaring scope, along the chain of scopes in the text, lies outside the innermost lambda |
| CaptureSites.OuterNameIsReported | libs/validation/src/typecheck.cpp:3160-3219 | A lambda that uses a parameter, a variable or a name of a let of an enclosing function, with no nearer declaration of the name, is reported |
| CaptureSites.LaterSeesEarlier | libs/validation/src/typecheck.cpp:2591-2951 | A use sees everything that is declared before it in its scope, and nothing that is declared behind it |
| CaptureScopes.CapturesAreUses | libs/validation/src/typecheck.cpp:3160-3219 | Nothing is reported if and only if no use is captured |
| CaptureScopes.BehindExactly | libs/emitc/src/emitter.cpp:97-204 | Of the global names exactly the external ones and the functions other than main and those whose names start with test_ are declared ahead of the static functions |
| CaptureScopes.KeptExactly | libs/emitc/src/emitter.cpp:805-949 | A use keeps its declaration in the static function if and only if that declaration is neither one of an enclosing function nor a global one that stands behind the static functions |
| CaptureScopes.VerdictIsExact | libs/validation/src/typecheck.cpp:3160-3219 | Where no nearer declaration comes later and none in force is a const of a function, the verdict on a use is right if and only if it is not a global that stands behind the static functions |
| CaptureScopes.MissedExactly | libs/validation/src/typecheck.cpp:3160-3219 | An unreported use keeps its declaration if and only if its lambda does not declare the name later, the declaration in force is no const of an enclosing function, and no global that stands behind the static functions |
| CaptureScopes.FalseAlarmExactly | libs/validation/src/typecheck.cpp:3160-3219 | A reported use would have kept its declaration if and only if the lambda has declared the name before it, which it then does by a const only, or the enclosing functions declare it only behind it and the global in force, if any, is declared ahead |
| CaptureScopes.AcceptedIsLiftable | libs/emitc/src/emitter.cpp:805-949 | In an accepted declaration every name keeps its declaration if and only if no lambda declares a name later that it uses from outside, uses a const of an enclosing function, or a global that stands behind the static functions |
| CaptureScopes.AcceptanceIsExact | libs/validation/src/typecheck.cpp:2960-2970 | Where no declaration comes late and no const of a function is used, all lambdas of a declaration can be lifted if and only if it is accepted and they use no global that stands behind the static functions |
| CaptureExamples.LateDeclarationIsMissed | libs/validation/src/typecheck.cpp:3167-3178 | A function that is accepted although lifting changes what a name denotes, because the lambda declares it late |
| CaptureExamples.ConstIsMissed | libs/validation/src/typecheck.cpp:2762-2766 | A function that is accepted although its lambda uses a const of the function, which the static function does not see |
| CaptureExamples.GlobalIsMissed | libs/emitc/src/emitter.cpp:279-283 | A program that is accepted, with nothing declared late, although the static function of its lambda stands before the global variable it uses |
| CaptureExamples.LetIsCaught | libs/validation/src/typecheck.cpp:2728-2760 | In `fn main() { let x; var f = fn() { return x; }; }` the use of x is reported |
| Lexing.LongestMatch | libs/ingestion/src/tokenize.cpp:316-507 | Of all operators and punctuation the longest that starts the text is taken, and only a text that starts with none is unknown |
| Lexing.GapStops | libs/ingestion/src/tokenize.cpp:264-295 | What is skipped ends at the end of the source or where neither a space, tab, carriage return or newline stands nor `//` or `/*` starts |
| LexForms.StringLiteralForm | libs/ingestion/src/tokenize.cpp:143-165 | A string ends behind the first quote that is not escaped, or with the source |
| LexForms.CharLiteralForm | libs/ingestion/src/tokenize.cpp:167-242 | A character literal is accepted exactly in its three forms |
| LexForms.NumberForm | libs/ingestion/src/tokenize.cpp:86-140 | A number is a prefixed literal of its radix, or digits with optional fraction and exponent, and a float exactly when it has one of these |
| LexNumbers.LongestNumber | libs/ingestion/src/tokenize.cpp:86-140 | With numbers defined on texts by spelled prefixes, digits, fraction and exponent: for every source that starts with a digit the token is such a number, no longer prefix of the source is one, and it is a float exactly when it is unprefixed and contains a point or an exponent mark |
| LexNumbers.Alphabets | libs/ingestion/src/tokenize.cpp:37-140 | The classes of digits and of white space, character by character |
| LexNumbers.Letters | libs/ingestion/src/tokenize.cpp:244-262 | Words start with a letter or an underscore and go on with these and digits |
| LexForms.KeywordsByRole | libs/ingestion/src/tokenize.cpp:244-262 | The keywords are the words that start declarations and statements, the constants, the built-in types, `map` and `as` |
| LexForms.WordForm | libs/ingestion/src/tokenize.cpp:244-262 | A word is the longest run of letters, digits and underscores |
| Tokenizer.Tokenizer.Advance | libs/ingestion/src/tokenize.cpp:24-35 | Moves one byte on, with line and column counted from the newlines before the position |
| Tokenizer.Tokenizer.SkipGap | libs/ingestion/src/tokenize.cpp:37-65 | White space and comments are skipped up to the next token |
| Tokenizer.Tokenizer.SkipBlockComment | libs/ingestion/src/tokenize.cpp:54-65 | A block comment is skipped up to behind its first end mark, or to the end of the source |
| Tokenizer.Tokenizer.ScanNumber | libs/ingestion/src/tokenize.cpp:86-140 | The branches and loops over digits take the number the grammar describes |
| Tokenizer.Tokenizer.ScanString | libs/ingestion/src/tokenize.cpp:143-165 | The loop over a string takes the string the grammar describes |
| Tokenizer.Tokenizer.ScanChar | libs/ingestion/src/tokenize.cpp:167-242 | A character literal is taken, or the position is where the error is reported |
| Tokenizer.Tokenizer.ScanPunctuation | libs/ingestion/src/tokenize.cpp:316-507 | The switch over punctuation, with one or two characters of lookahead |
| Tokenizer.Tokenizer.NextToken | libs/ingestion/src/tokenize.cpp:264-508 | The next token with its lexeme, line, column and index, or the place of the error; at least one byte is consumed before the end |
| Tokenizer.Tokenize | libs/ingestion/src/parser.cpp:11-30 | The loop collects all tokens up to the end of the file, or reports the first error |
| LexCoverage.GapIsBlank | libs/ingestion/src/tokenize.cpp:37-65 | What is skipped is white space and whole comments; only at the end of the source may a comment be open |
| LexCoverage.TokensCover | libs/ingestion/src/tokenize.cpp:264-508 | The tokens cut a source into blank gaps and lexemes |
| LexCoverage.CoverageMeans | libs/ingestion/src/tokenize.cpp:79-84 | Every lexeme is the slice at its index, indices increase, slices are disjoint, gaps are blank, and there is at most one token more than characters |
| LexCoverage.SourceIsCovered | libs/ingestion/src/parser.cpp:11-30 | So for every source that can be tokenized |
| LexRespacing.LexStays | libs/ingestion/src/tokenize.cpp:86-508 | A lexeme alone or in front of a space is the same token |
| LexRespacing.RespacingIsStable | libs/ingestion/src/tokenize.cpp:86-508 | For every source: its lexemes joined by single spaces are tokens of the same types and lexemes |
| ErrorDisplay.SourceIndexToLineColumn | libs/core/src/error_display.cpp:93-114 | Line and column of an index, with the three kinds of line ends |
| ErrorDisplay.SplitLines | libs/core/src/error_display.cpp:116-143 | The lines of a source; the last one is never forgotten |
| ErrorDisplay.ExpandTabs | libs/core/src/error_display.cpp:156-171 | Tabs are replaced by spaces up to the next tab stop |
| ErrorDisplay.VisualColumn | libs/core/src/error_display.cpp:173-215 | The column behind a number of characters, by their first bytes |
| Caret.LineHoldsCharacter | libs/core/src/error_display.cpp:93-143 | The line at the computed line number has the character at the computed column, behind the text before it |
| Caret.AllLines | libs/core/src/error_display.cpp:116-143 | There are as many lines as line ends and one more, no line contains a line end, and together they are all other characters |
| Caret.CaretPointsAtCharacter | libs/core/src/error_display.cpp:156-215 | For every character behind ASCII text on its line, under any mixture of line ends, the caret is in the column in which the expanded line shows it |
| Caret.CaretIsRightExactly | libs/core/src/error_display.cpp:173-215 | Behind complete characters the caret is where they end if and only if they are all ASCII |
| Utf8.VisualCountsCharacters | libs/core/src/error_display.cpp:173-215 | On a line of UTF-8 text (section 3 of RFC 3629) the counter passes one character at a time: a tab goes on to the next multiple of the tab width, any other character takes one column |
| Utf8.CaretInTextExactly | libs/core/src/error_display.cpp:173-215 | On such a line the caret of an ASCII character is where the characters before it end if and only if these are all ASCII |
| Caret.CountersAgreeExactly | libs/core/src/error_display.cpp:93-114 | Tokenizer and error display agree on a position if and only if no carriage return before it stands alone |
| Caret.TokensAreWhereTheyAreShown | libs/ingestion/src/tokenize.cpp:24-35 | For every token of a source without lone carriage returns, its line and column are those computed from its index |
| ScopedStore.HoistIsOverriding | libs/core/include/truk/core/memory.hpp:81-87 | Moving the pending keys one by one overrides the parent by exactly the pending keys present, of which a repeated one ends as null |
| ScopedStore.HoistKeepsValuesExactly | libs/core/include/truk/core/memory.hpp:81-87 | Every pending value arrives if and only if no key with a value is pending twice |
| ScopedStore.HoistingTwiceLosesTheValue | libs/core/include/truk/core/memory.hpp:81-87 | A key hoisted twice ends as null |
| ScopedStore.LookupIsInnermost | libs/core/include/truk/core/memory.hpp:115-128 | A lookup gives the binding of the innermost context that has one, null or not |
| ScopedStore.SetIsFound | libs/core/include/truk/core/memory.hpp:99-128 | After a set a lookup of the key gives the value, with and without parents, and that of every other key what it gave before |
| ScopedStore.DroppedIsGone | libs/core/include/truk/core/memory.hpp:115-132 | After a drop the key is not set in the innermost context and a lookup with parents is that of the outer contexts; no other key changes |
| ScopedStore.DeferredHoistArrives | libs/core/include/truk/core/memory.hpp:76-139 | Deferring a hoist changes no lookup, and at the next pop the parent gets exactly that key in addition |
| ScopedStore.PushedIsEmpty | libs/core/include/truk/core/memory.hpp:60-71 | A push succeeds exactly while fewer contexts are live than there are slots, and then sets nothing and hides nothing |
| ScopedStore.BalancedRunKeepsOuter | libs/core/include/truk/core/memory.hpp:60-94 | A run that returns to its depth and hoists nothing out leaves all outer contexts as they were |
| ScopedStore.BalancedRunIsNeutral | libs/core/include/truk/core/memory.hpp:60-94 | A balanced run that fits changes nothing |
| Memory.Memory.PushCtx | libs/core/include/truk/core/memory.hpp:60-71 | Succeeds exactly while fewer contexts are live than there are slots; then an empty context is the innermost one and no live one is touched, otherwise nothing changes |
| Memory.Memory.PopCtx | libs/core/include/truk/core/memory.hpp:76-94 | Removes the innermost context and overrides its parent by the pending keys; the root stays |
| Memory.Memory.Set | libs/core/include/truk/core/memory.hpp:99-101 | The innermost context binds the key to the item; its other keys, its pending keys and all outer contexts stay |
| Memory.Memory.IsSet | libs/core/include/truk/core/memory.hpp:106-108 | Looks at the innermost context only |
| Memory.Memory.Get | libs/core/include/truk/core/memory.hpp:115-128 | The walk along the parents is the lookup in the stack, or in its top |
| Memory.Memory.DropKey | libs/core/include/truk/core/memory.hpp:132 | The innermost context no longer has the key; everything else stays |
| Memory.Memory.DeferHoistKey | libs/core/include/truk/core/memory.hpp:137-139 | The key is appended to those pending in the innermost context; everything else stays |
| Memory.SetThenGet | libs/core/include/truk/core/memory.hpp:99-128 | A caller that sets a key and gets it back has the item it set, and any other key as before |
| Memory.ShadowAndRestore | libs/core/include/truk/core/memory.hpp:60-132 | Push and set, then drop or pop: in the pushed context nothing is set at first, then the new item hides the outer one, and after the drop or the pop the key is found as before |
| Memory.HoistOut | libs/core/include/truk/core/memory.hpp:60-139 | Push, set, defer and pop: the item arrives in the outer context |
| TypeNodes.ResolvesExactly | libs/validation/src/typecheck.cpp:109-218 | A type is accepted if and only if its names are registered, nothing is missing, and its map keys are keys |
| TypeNodes.SurvivesExactly | libs/validation/src/typecheck.cpp:3273-3375 | An accepted type comes back unchanged if and only if no function type in it is variadic and no built-in type is written as a name |
| TypeNodes.ComesBackNormal | libs/validation/src/typecheck.cpp:3273-3375 | What comes back from any accepted type |
| TypeNodes.EntriesAreStable | libs/validation/src/typecheck.cpp:109-218 | The node that comes back resolves to the same entry |
| TypeNodes.NamedAndCounted | libs/validation/src/typecheck.cpp:110-154 | The entry of an accepted type has the name written innermost in its pointers and arrays and as many levels of pointers as it has stars |
| TypeNodes.StarsOnStruct | libs/validation/src/typecheck.cpp:126-140 | For any number of stars in front of the name of a registered type, structs and enums included: the pointer has that depth and that name |
| TypeNodes.NumbersAre | libs/validation/src/typecheck.cpp:447-464 | The built-in types other than void are bool and the widths 8, 16, 32 and 64 of i and u and 32 and 64 of f |
| TypeNodes.VariadicIsLost | libs/validation/src/typecheck.cpp:156-176 | A variadic function type comes back as another type |
| TypeNodes.KeysExactly | libs/validation/src/typecheck.cpp:447-464 | A key is accepted if and only if it is a number, bool, or a pointer to u8 or i8 or to arrays of what is made of these |
| TypeNodes.ArrayPointerIsKey | libs/validation/src/typecheck.cpp:142-154 | A map with keys that point to an array is accepted |

## Left out

- DeferProof.WeavingKeepsMeaning: leaves out lambdas inside functions (their scopes are chained to the enclosing ones), a defer directly inside a deferred block (it appends to the list being walked), and expression statements that are neither calls nor assignments, which the emitter does not write at all.
- DeferEmitter.Emitter.Visit: the names of temporaries that the emitter makes up (`__result`, `__tmp_`, `_truk_match_`, `__truk_va_args`) are taken to be used by nobody else; indentation is not modelled.
- DeferEmitter.SameStmt: the form in which an index expression, `delete` or `each` is written depends on the kind (slice, map, string or other) that was registered last for a name, in a table without scopes (libs/emitc/src/variable_registry.cpp:8-15); the kinds of variables are not modelled. Behind an inner declaration of the same name with another kind the outer variable is written in the wrong form, which C then rejects.
- DeferCapture.EmittedTextMeansTheSource: takes every expression to be written in the form its variables ask for, as in the line before; a name declared twice in one block, or a parameter declared again in the body, hides the earlier one here, while C rejects the program; a variable has one value at a time, so recursion is not modelled.
- ControlFlow.Checker.Visit: expressions contain no control flow and are not traversed in the model.
- HashMap.Map.Set: hash and comparison are an abstract function and equality; concrete hashes, byte layout of nodes and floating-point keys are not modelled, nor is changing the map during an iteration.
- ImportResolver.Resolver.Resolve: the file system is a finite map from canonical paths; C imports, shards and the text of messages are left out, and so is topological_sort, which resolve never calls.
- ExprParser.Parser.Primary: lambda literals are not part of the model; the keyword `fn` is an error there.
- ExprParser.Parser.ArrayType: the size is kept as it is written; its conversion to a number is not modelled.
- ExprEmitted.EmittedReadsBack: casts, literals that the emitter rewrites, array and struct literals, slices, maps, enum members and built-in calls are not covered, nor is an assignment inside another expression, which the emitter writes without parentheses.
- ExprEmitted.EmittedCall: calls of built-in functions, which go to handlers, are not covered.
- ExprEmitted.EmittedIndex: indexing into slices and maps, which the emitter writes as a bounds-checked access and as calls, is not covered.
- ExprCompound.CompoundIsFaithful: places are variables, fields, and elements of arrays, of what pointers point to and of slices; entries of maps, which the emitter writes by calls, are not; the index of a slice, which the emitter writes a second time for its bounds check, is evaluated once.
- CaptureScopes.AcceptedIsLiftable: is about the text of an application; the text of a library, which assemble builds from other pieces, is not modelled, nor is a function that uses a global variable defined behind it. A variadic parameter declares no name that an expression could use.
- CaptureCollector.Collector.Visit: symbol entries, their kinds and the copies kept in the scoped store are left out; a scope is the set of its names.
- Tokenizer.Tokenizer.NextToken: peek_token is not modelled, because nothing calls it.
- ErrorDisplay.VisualColumn: a byte is a character of code below 256; printing, colours and the width of line numbers are left out.
- Memory.Memory.PopCtx: the destructor, which pops everything, is not modelled.
- TypeNodes.ResolvesExactly: reported messages, and the fields and values of structs and enums, are left out.
- assemble_code and library headers, the statement and declaration grammar, the rest of type checking, the loader and the runtime outside the hash map are not modelled.
