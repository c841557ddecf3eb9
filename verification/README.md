# Verified model of the MacKernelSDK macro headers

The SDK is made of headers, and its logic is in their macros.  This project models four families of
macros as small languages with their own semantics and proves what each family is for.

**Assertion macros** (`Headers/AssertMacros.h`).  Every `__Check*`, `__Verify*` and `__Require*` macro
has a production and a debug definition.  Module `CLang` has the C fragment they expand into (blocks,
`if`, loops, `goto`, `break`, `continue`, `return`, a `long` local, external calls, message calls), an
interpreter for it, and one parametric *reference rule* for a macro invocation.  `Expansion` transcribes
the definitions as statements, `Hygiene` transcribes them again as token lists, over the tokens and
the parser of `Syntax`.  The theorems are:

- the text of every definition parses as the transcribed statement, in every surrounding nest of `if`,
  `else` and loops, and whole function texts parse as their expansions (`Hygiene`, `FunctionText`);
- what each macro does is stated form by form, as its comment says, with the content of its message
  (`Summaries`);
- the expansion of every program refines its reference run, including where the local
  `evalOnceErrorCode` might capture a user variable (`Refinement`);
- the two builds of every function agree apart from diagnostics (`Builds`, `Functions`, `EndToEnd`);
- the messages printed are exactly those owed for the macros reached, and operands are evaluated
  once a visit (`Functions`, `Probes`);
- fuel can be removed from these statements, and forward jumps terminate (`Termination`);
- the interpreter agrees with a second semantics, a small-step machine with explicit continuations and
  without fuel, which also carries the end-to-end theorem (`Machine`, `EndToEnd`);
- where the expansions do part, exact conditions and counterexamples say so (`Boundaries`, `Integers`).

`Syntax` proves that its parser and printer are inverse: a statement is read back from its own text if and
only if no `else` stands behind an open `if`, and every accepted text is the text of such a statement.

A run is a function of a store, an environment (the width of `long`, the replies of external functions to
the whole history of calls, and the indeterminate value of an uninitialised local) and a fuel that bounds
loop iterations and backward jumps only.  Two programs are compared on their control outcome, final store
and ordered trace.  Since an operand may contain any external calls, equal traces also mean that operands
are evaluated equally often and in the same order.  The C type of an error-code operand is written as a
cast around it.  A message argument is an expression too, which debug evaluates when it reports, a second
time if it is not null, as the default `DEBUG_ASSERT_MESSAGE` does (lines 216-226).

There are five side conditions of build equivalence, all decidable on the source (`Portable` has the first
four): operands of Check macros have no side effects; message arguments have none; an error code whose
value decides what runs next has a type no wider than `long`; no `break` or `continue` escapes an action
of `__Verify_noErr_Action`; user text does not name `evalOnceErrorCode`.  For each, `Boundaries` has a
program that breaks it.  The first four also have a form for one run from one store (`Safe`): every macro
that the production run comes to meets its condition there.  The documentation of `__Verify_noErr_Action`
promises the same action in both builds; the code keeps that promise only under these conditions, because
its debug form alone is wrapped in `do { } while (0)` and copies the code into a `long`.

**Availability resolution** (`Headers/AvailabilityMacros.h`, `Headers/AvailabilityVersions.h`).
`Versions` has the integer encoding of versions with its seam between 10.9 and 10.10, `Resolution` the
fallback chains as one rule over arbitrary versions.  Two blocks test another version than they name
(lines 824 and 3964); the rule has the tested version as a parameter, and for those blocks the exact set
of targets that resolve differently is given.  The comment at line 114 says that the default maximum is
10.15; the code says 14.0, and the model follows the code.

**Availability attributes** (`Headers/Availability.h`, `Headers/AvailabilityInternal.h`).  `Dispatch` has
the argument-counting selection of indexed macros, `Regions` the push/pop regions, as a class that
processes a header in place, a specification function and a tree reading.  `Swift` has the compiler
version test.

**`atomic_flag`** (`Headers/stdatomic.h`).  `AtomicFlag.dfy` has the object and the interleavings of any
number of threads.  Operations take effect one at a time, in the order of a single total order, as
sections 7.17.7 and 7.17.8 of ISO/IEC 9899:2011 give for sequentially consistent operations.

`dafny verify dfyconfig.toml` checks the whole project.

## Model

| member | source | states |
|---|---|---|
| Integers.NarrowingBoundary | Headers/AssertMacros.h:601-604 | copying an operand of an integer type into a `long` of any width keeps whether it is zero for every value of the type, if and only if the type is no wider than `long` |
| Integers.WideTypeLosesTruth | Headers/AssertMacros.h:965-970 | every type wider than `long` holds a nonzero value that the copy turns into zero |
| Integers.ConvertWraps | Headers/AssertMacros.h:601-604 | a conversion, and so the copy into `long`, changes a value by a multiple of 2^width only |
| Integers.ConvertUnique | Headers/AssertMacros.h:601-604 | the result is the only value of the type with that property |
| Integers.LongHolds | Headers/AssertMacros.h:601-604 | a `long` of w bits holds -2^(w-1) to 2^(w-1)-1 unchanged |
| Integers.ConvertExamples | Headers/AssertMacros.h:965-970 | the error number 0xE00002BC as a 32-bit `int`, and 300 as an `unsigned char` |
| Summaries.DebugStringSummary | Headers/AssertMacros.h:230-264 | debug prints one message with the string and no text or label, production does nothing |
| Summaries.CheckSummary | Headers/AssertMacros.h:266-336 | production does nothing; debug evaluates the assertion and, if it fails, prints its text, negated for an __n* form, with the message if the form has one and without label |
| Summaries.VerifySummary | Headers/AssertMacros.h:407-491 | both builds evaluate the assertion, debug reports a failed one |
| Summaries.VerifyActionSummary | Headers/AssertMacros.h:615-650 | both builds run the action if the assertion fails, debug after the message |
| Summaries.RequireSummary | Headers/AssertMacros.h:653-872 | both builds jump to the label if the assertion fails, debug after one message with its text and the label; the plain and string forms |
| Summaries.RequireActionSummary | Headers/AssertMacros.h:699-934 | the same with the action before the jump |
| Summaries.QuietSummary | Headers/AssertMacros.h:758-821 | a quiet form prints no message of its own in either build |
| Summaries.QuietCodeSummary | Headers/AssertMacros.h:1036-1092 | a quiet form on an error code tests the code itself, without copy and without message |
| Summaries.IgnoredCodeSummary | Headers/AssertMacros.h:339-572 | production does not evaluate the code of `__Check_noErr` and evaluates and ignores that of `__Verify_noErr` |
| Summaries.CodeSummary | Headers/AssertMacros.h:575-1197 | production tests the code itself and then runs the action, jumps, or does both |
| Summaries.ReportedCodeSummary | Headers/AssertMacros.h:339-572 | debug tests the copy of the code and, if it is not zero, prints the text of the operand, the message if there is one and the copy |
| Summaries.DebugVerifyCodeSummary | Headers/AssertMacros.h:593-612 | debug runs the action after the message, inside `do { } while (0)` and the scope of the copy |
| Summaries.DebugRequireCodeSummary | Headers/AssertMacros.h:937-1139 | debug jumps after a message with the label and the copy |
| Summaries.DebugRequireCodeActionSummary | Headers/AssertMacros.h:981-1197 | the same with the action before the jump |
| Summaries.CopyIsPrinted | Headers/AssertMacros.h:966-970 | the value printed is the code after the copy into `long` |
| Hygiene.ReplacementPrints | Headers/AssertMacros.h:246-1197 | the replacement list of each macro, in each build, followed by the user's semicolon, is the text of exactly the statement used in the semantics |
| Hygiene.ReplaceWellFormed | Headers/AssertMacros.h:279-650 | that statement is closed: it takes no `else` from its surroundings |
| Hygiene.ExpandTextPrints | Headers/AssertMacros.h:246-1197 | expanding the tokens of any program, with macros nested in actions to any depth, gives the tokens of its expansion, open to an `else` exactly when the program was |
| Hygiene.StatementHygiene | Headers/AssertMacros.h:246-1197 | for every token list that parses unexpanded, both expanded token lists parse, as the expansions of that parse, so each `else` keeps its `if` |
| Refinement.ReplaceSimulates | Headers/AssertMacros.h:246-1197 | one parametric rule: in both builds every macro evaluates its operand once, reports if and only if it is a failed non-quiet form in debug, runs its action if and only if it failed, and then leaves as the rule says |
| Refinement.BindCodeSimulates | Headers/AssertMacros.h:354-367 | declaring `evalOnceErrorCode` changes no evaluation of an operand that does not name it |
| Refinement.ExpandSimulates | Headers/AssertMacros.h:246-1197 | the expansion of every program simulates its reference run from related states, for every fuel, and changes no hidden variable |
| Refinement.ExpansionRefines | Headers/AssertMacros.h:246-1197 | every expanded program ends in the same store and outcome as its reference run, with exactly the calls and messages owed; in production without any side condition |
| Refinement.CaptureFreedom | Headers/AssertMacros.h:354-1197 | a debug expansion behaves the same whatever a surrounding variable named `evalOnceErrorCode` holds, and leaves that variable alone, with noErr macros nested in actions to any depth |
| Refinement.ExpandIsMacroFree | Headers/AssertMacros.h:246-1197 | an expansion contains no invocation |
| Builds.SafeRunsAlike | Headers/AssertMacros.h:246-1197 | if every macro that the production run of a program comes to meets its condition there, the reference runs of both builds have the same outcome, store, calls and Verify and Require operands with their values, in the same order |
| Builds.SafeMacroRunsAlike | Headers/AssertMacros.h:246-1197 | the same for a single macro of any family: Check operand and message without effect, no break or continue absorbed, and a code that only production sees as a failure has an action without effect |
| Builds.PortableIsSafe | Headers/AssertMacros.h:246-1197 | the side conditions on the source imply those on the run, from every state |
| Builds.RunsAlike | Headers/AssertMacros.h:246-1197 | so the reference runs of a portable program agree from all states that differ in diagnostics only |
| Builds.PureExact | Headers/AssertMacros.h:266-294 | the purity condition is exact, apart from operands of `&&` that may be skipped: an expression meets it if and only if it leaves a fresh state as it is |
| Functions.JumpLands | Headers/AssertMacros.h:670-692 | a segment that jumps goes on at the first segment that carries the label, ahead of it or behind |
| Functions.SegmentEnds | Headers/AssertMacros.h:670-692 | a jump to no label, a break, continue or return leaves the function; a segment that ends normally is followed by the next |
| Functions.FailedRequireLands | Headers/AssertMacros.h:670-692 | in both builds a failed `__Require` goes on at its exception label with the state after its operand and its message |
| Functions.FunctionRefines | Headers/AssertMacros.h:670-1197 | an expanded function with labels and jumps refines its reference run |
| Functions.RunEquivalence | Headers/AssertMacros.h:246-1197 | the debug and production expansions of a function end together, with the same store, outcome and external calls, from every store for which each macro that the production run comes to meets its condition |
| Functions.BuildEquivalence | Headers/AssertMacros.h:246-1197 | the same from every store for a portable function, whose Check operands and messages are pure, whose codes fit in `long` and whose `__Verify_noErr_Action` actions keep break and continue inside |
| Functions.TraceExactness | Headers/AssertMacros.h:246-1197 | debug prints exactly the messages of the debug strings and failed non-quiet assertions reached, in order, with label, message and value; production prints none |
| Functions.EvaluationCount | Headers/AssertMacros.h:246-1197 | where the macros met by production meet their conditions, its reference trace is exactly the debug one without its visits to Check macros and its messages: the same Verify and Require operands, each once a visit, with the same values and between the same calls, and no Check operand |
| Probes.ProbesCountVisits | Headers/AssertMacros.h:246-1197 | in each build the expanded function evaluates an operand exactly once a visit: if chosen operands are calls of a probe that is called nowhere else, the probe calls of the expansion return, in order, the operand values of the visits of the reference run |
| FunctionText.BodyHygiene | Headers/AssertMacros.h:246-1197 | for every text of a function body, with exception labels, that parses unexpanded, both expanded texts parse, as the expansions of that parse |
| EndToEnd.TextsRunAlike | Headers/AssertMacros.h:246-1197 | the two preprocessed texts of one function, with exception labels, both parse and, run on the small-step machine from a store for which each macro that production comes to meets its condition, halt together and behave the same for every caller |
| Termination.BuildsTerminateAlike | Headers/AssertMacros.h:246-1197 | from such a store one build of a function terminates if and only if the other does, and then no caller can tell them apart |
| Termination.PortableRunIsSafe | Headers/AssertMacros.h:246-1197 | for a portable function every store is of this kind |
| Termination.ForwardTerminates | Headers/AssertMacros.h:670-692 | a body whose labels all lie after the jumps to them terminates, from every segment and state, if its statements do |
| Termination.SkippedStatementsDoNotRun | Headers/AssertMacros.h:721-750 | no statement between a failing Require and its label has any influence on the run |
| Termination.ExpandKeepsShape | Headers/AssertMacros.h:246-1197 | an expansion adds no loop other than `do { } while (0)` and no jump |
| Termination.RequireCodeTerminates | Headers/AssertMacros.h:954-1033 | both builds of loop-free code with forward exception labels terminate from every store, whatever its operands, actions and messages are |
| Machine.MachineAdequate | Headers/AssertMacros.h:246-1197 | the small-step machine halts on a macro-free function with a result if and only if the interpreter gives that result for some fuel |
| Machine.HaltsExact | Headers/AssertMacros.h:246-1197 | the machine halts on an expanded function exactly as that build terminates |
| Machine.BuildsHaltAlike | Headers/AssertMacros.h:246-1197 | on the machine one build of a function halts if and only if the other does, with the same outcome, store and calls, where each macro that production comes to meets its condition |
| Boundaries.MacroBoundary | Headers/AssertMacros.h:246-1197 | the exact boundary for the expansions: for every macro that does not name `evalOnceErrorCode`, whatever its action, from every store, both builds have the same outcome, store and calls if and only if Check operand and message have no effect, or the assertion holds in production, or it fails in both and the debug action after the message ends the macro as the production action without it does, or, where only production fails, its action changes nothing and does not lead out of the macro |
| Boundaries.PortableBoundary | Headers/AssertMacros.h:246-1197 | the same boundary without runs of the debug action, for a portable action and a pure message: if and only if a Check operand has no effect, or the code is zero or survives the copy into `long` and no break or continue is absorbed, or, where only production fails, its action changes nothing and does not lead out of the macro |
| Boundaries.RequireNoErrTypeBoundary | Headers/AssertMacros.h:954-978 | the expansions of `__Require_noErr` behave the same on all operands of a type that do not name `evalOnceErrorCode`, from all stores, if and only if the type is no wider than `long`, which is the condition on a portable program |
| Boundaries.VerifyNoErrEscapeLaw | Headers/AssertMacros.h:593-612 | for every action and state, the production text of `__Verify_noErr_Action` passes the outcome of its action through, and the debug text does so with break and continue absorbed |
| Boundaries.VerifyNoErrBuildsLaw | Headers/AssertMacros.h:593-612 | the debug expansion behaves like the production expansion with break and continue absorbed, so the two behave the same if and only if neither escapes |
| Boundaries.VerifyActionEscapeLaw | Headers/AssertMacros.h:633-650 | for every action and state, both texts of `__Verify_Action` do exactly what the action of a failed assertion does, after the message if there is one |
| Boundaries.RequireEscapeLaw | Headers/AssertMacros.h:721-750 | for every action and state, no text of a Require macro lets break or continue out, an action that ends in one skips the jump, one that ends normally leads to the label, and other exits pass |
| Boundaries.NegatedFormsExpandAlike | Headers/AssertMacros.h:694-696 | every __n* form expands like its positive form on the negated operand |
| Boundaries.EscapeConditionIsNeeded | Headers/AssertMacros.h:593-612 | the production expansion of a loop left by break in an action of `__Verify_noErr_Action` ends at once, the debug expansion never |
| Boundaries.ContinueConditionIsNeeded | Headers/AssertMacros.h:593-612 | a continue in such an action makes the production expansion of a loop repeat to its end, and the debug expansion run on into the rest of the body |
| Boundaries.PurityConditionIsNeeded | Headers/AssertMacros.h:281-294 | an assignment in a Check operand changes the store in the debug expansion only |
| Boundaries.MessageConditionIsNeeded | Headers/AssertMacros.h:216-488 | for every function f, `__Debug_String(f(0))` and `__Verify_String(0, f(0))` call f in the debug expansion, twice if it returns a message, and never in the production expansion |
| Boundaries.CaptureConditionIsNeeded | Headers/AssertMacros.h:963-977 | an operand that names `evalOnceErrorCode` makes the two expansions differ |
| Boundaries.MessageCaptureConditionIsNeeded | Headers/AssertMacros.h:558-571 | a message that names `evalOnceErrorCode` shows the local in place of the variable that its caller sees |
| Versions.EncodeOrder | Headers/AvailabilityVersions.h:27-91 | the integer encoding orders versions lexicographically, across the seam from 1090 to 101000, for unbounded major versions |
| Versions.DecodeInverts | Headers/AvailabilityVersions.h:27-91 | versions are recovered from their integers, and an integer that denotes a version is the encoding of that version only |
| Resolution.ConfigureExact | Headers/AvailabilityMacros.h:96-132 | a target is accepted if and only if 10.0 <= min <= max, and a defaulted maximum is never rejected for being below the minimum |
| Resolution.ConfigureDefaults | Headers/AvailabilityMacros.h:102-122 | the defaults are 10.4, 10.5 or 10.1 by architecture, and the larger of 14.0 and the minimum |
| Resolution.ConfigureGiven | Headers/AvailabilityMacros.h:96-132 | a given minimum wins over deployment target and architecture, the deployment target over the architecture, a given maximum is taken as it is, and each bad target gets its own error |
| Resolution.EncodingRefines | Headers/AvailabilityMacros.h:226-248 | the chain on integers gives the same answer as the rule on (major, minor, patch) by lexicographic order |
| Resolution.RangeClassification | Headers/AvailabilityMacros.h:226-248 | unavailable if and only if no targeted version has the symbol, weak if and only if the oldest lacks it and the newest has it, plain or deprecated if and only if all have it, deprecated if and only if it is so on the oldest |
| Resolution.UnconditionalFormsAgree | Headers/AvailabilityMacros.h:187-202 | the order of the tests does not matter, and the unconditional forms for 10.0 follow the rule |
| Resolution.WeakImportExact | Headers/AvailabilityMacros.h:137-143 | weak_import is emitted if and only if the compiler supports it and 10.2 <= min < introduced <= max |
| Resolution.LifecycleRisingMin | Headers/AvailabilityMacros.h:226-262 | over any sequence of builds with rising minimum a symbol only moves from weak to plain to deprecated, and unavailable stays |
| Resolution.LifecycleRisingMax | Headers/AvailabilityMacros.h:226-262 | over any sequence of builds with rising maximum a symbol only moves from unavailable to weak |
| Resolution.MistestedExact | Headers/AvailabilityMacros.h:822-828 | a block that tests an earlier version than it names resolves differently if and only if the minimum lies between the two |
| Resolution.MistestedBlocks | Headers/AvailabilityMacros.h:3962-3968 | the two blocks of this kind differ from the rule for minimums from 10.7 to below 10.13 and from 10.12 to below 10.13 |
| Dispatch.SelectsByCount | Headers/AvailabilityInternal.h:229-238 | for every table size k, n clauses select the macro for n clauses if and only if 1 <= n <= k, the first argument of the deprecated and replacement families not being a clause |
| Dispatch.DispatchIsMap | Headers/Availability.h:442-480 | by family: the available and unavailable families map over 1 to k arguments in order, the deprecated and replacement families over all but the first of 2 to k+1 arguments, with the first repeated as note; otherwise there is no expansion |
| Dispatch.NineClauses | Headers/AvailabilityInternal.h:229-345 | the header's families expand for up to nine clauses and no more |
| Regions.BeginOpensGroup | Headers/AvailabilityInternal.h:240-251 | a BEGIN opens one group that holds the attributes of all its clauses |
| Regions.StackRefinesTree | Headers/Availability.h:444-483 | the text of every forest of regions runs without error from every stack, restores it, and gives each declaration the attributes of its enclosing regions |
| Regions.BalancedExact | Headers/Availability.h:444-483 | a header runs without error and restores the empty stack if and only if it is the text of a forest, whichever END closes each region |
| Regions.AttributeStack.Apply | Headers/Availability.h:444-445 | one directive changes the stack as specified, or fails and changes nothing |
| Regions.AttributeStack.Process | Headers/Availability.h:444-483 | processing a header in place computes the specified final stack and declarations, and fails exactly when the specification does |
| Swift.ThresholdOrder | Headers/AvailabilityInternal.h:376-377 | within the bounds the 64-bit threshold does not wrap and orders as (X, Z, a, b) |
| Swift.AtLeastIsLexicographic | Headers/AvailabilityInternal.h:376-378 | the test is lexicographic comparison with the compiler's components |
| Swift.ArgumentPositions | Headers/AvailabilityInternal.h:375-381 | the components are the first, third, fourth and fifth argument, compared lexicographically, and without a compiler version the test is true |
| Swift.SecondArgumentIgnored | Headers/AvailabilityInternal.h:376-378 | the second argument has no effect |
| Swift.TrailingArguments | Headers/AvailabilityInternal.h:378 | omitted trailing arguments count as zeros and a sixth or later argument is ignored |
| Swift.BoundIsExact | Headers/AvailabilityInternal.h:376-377 | one above the bound on X the threshold can wrap |
| AtomicFlags.AtomicFlag.constructor | Headers/stdatomic.h:166 | the flag starts clear |
| AtomicFlags.AtomicFlag.TestAndSet | Headers/stdatomic.h:169 | the flag is set and its previous value returned |
| AtomicFlags.AtomicFlag.Clear | Headers/stdatomic.h:172 | the flag is clear |
| AtomicFlags.Perform | Headers/stdatomic.h:164-173 | any interleaving of operations on the object gives a legal history with the same operations in the same order |
| AtomicFlags.WinsExactly | Headers/stdatomic.h:164-173 | in every legal history a test-and-set returns 0 if and only if every earlier one has since been cleared |
| AtomicFlags.WinnersAreSeparated | Headers/stdatomic.h:164-173 | two calls that return 0 are separated by a clear |
| AtomicFlags.MutualExclusion | Headers/stdatomic.h:164-173 | if only holders clear, there is never more than one holder, and there is one exactly while the flag is set |
| AtomicFlags.StrayClearBreaksExclusion | Headers/stdatomic.h:164-173 | a clear by another thread can lead to two holders |

## Left out

- Functions.RunEquivalence: one direction only; where several macros break their conditions their effects may cancel, and a Check operand may have an effect that is undone later. The exact condition at one macro is Boundaries.MacroBoundary.
- The order in which C evaluates the message and the value of a report is unspecified; the model takes the message first, which makes no difference to a message that does not name `evalOnceErrorCode`.
- A message argument stands unparenthesised in `(message!=0)`, so one that binds weaker than `!=` is taken to be in parentheses.
- Boundaries.CaptureConditionIsNeeded: one direction only; a program that names `evalOnceErrorCode` may still behave alike, for instance where the name occurs in dead code.
- Boundaries.PurityConditionIsNeeded: a concrete program; the exact condition at a store is Boundaries.MacroBoundary.
- C expressions beyond literals, variables, assignment, calls, casts, negation, conjunction and binary operators; user variables hold unbounded integers, so assignment to a narrower variable is written as a cast.
- `switch`, `for`, labels inside nested blocks and several labels on one statement; exception labels stand at the top level of a function body.
- The branch hint `__builtin_expect`, which does not change a value, and component name, file and line of a message.
- Commas inside macro arguments and other lexical matters of the preprocessor below the level of statements.
- `__Check_Compile_Time` and the lower-case aliases: compile-time only, or plain renaming.
- Overriding single macros or `DEBUG_ASSERT_MESSAGE` by definitions made before the header is included.
- The branches of AvailabilityMacros.h that hand over to the compiler's `availability` attribute, and compilers without `deprecated` or `unavailable` attributes.
- The warning for Intel deployment targets below 10.4, which changes no definition, and the POSIX setting that hides the version names.
- The version constants of other platforms, the generated table of AvailabilityInternalLegacy.h and the platform cascade of AvailabilityInternal.h: finite tables.
- The empty forms of the `__API_*` macros for compilers without `availability`, where `_END` takes arguments, and compilers without replacement notes.
- Spelling of platform names within a clause (`macosx` for `macos`, `xros` for `visionos`).
- The remaining operations of stdatomic.h and weaker memory orders.
