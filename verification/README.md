# A verification model of the chord server framework

This Dafny project models the parts of the chord C++ framework where behaviour is hard
to see from one function, and proves what they guarantee. `dafny verify dfyconfig.toml`
checks everything.

| files | what they model |
|---|---|
| `Pattern`, `PatternLaws`, `PatternAppend`, `LogFormatter`, `DefaultPattern` | the log pattern compiler: a tokeniser with a declarative reference, its laws, and the two nested loops of `LogFormatter::init` proved to compute it |
| `FiberMachine`, `FiberReferences`, `Fibers` | fibers: states, saved contexts as resume points, references held by the fibers' own stacks and by others, counted over whole runs, and the methods of the source proved step by step against the machine |
| `ConfigVars`, `ListenerKeys`, `ConcurrentConfigVar`, `ListenerChains`, `ConfigLoad`, `Config`, `DocumentPaths` | configuration variables, in one thread and under every interleaving, who is registered and what a listener sees, and loading a document into the registry, node by node |
| `LexicalCast`, `Yaml` | the recursive conversion of containers to YAML nodes and back |
| `LogDefines`, `LogDocuments`, `Reconcile`, `ConfiguredLoggers`, `Loggers`, `LoggerDump`, `FormatterInheritance`, `ShippedLogConfig` | log definitions and their conversion, the callback that brings running loggers to their definitions, what an event then comes out as, formatter objects shared between loggers and appenders, the dump of the running loggers, and all of it on `bin/conf/log.yml` |
| `ConcurrentFormatters`, `LateLogCalls` | what threads do to each other in the gaps between a logger's locks: lending formatters, and log calls that overtake a removal |
| `LockOrder`, `LockedOperations`, `DataRaces`, `NestedReads`, `ScopedLocks` | lock nesting of every operation above, freedom from deadlock for any number of threads and the data on which they can race, the scoped guards and the spinning lock |
| `ThreadStart` | the start-up handshake between the `Thread` constructor and the new thread, and the semaphore |

Each component that the source writes as methods over fields is a class here, and every
such method is proved to take the object from one abstract state to the next. What the
system promises is proved about those states, mostly over all runs.

## Where the code does not do what it appears meant to

The model follows the code in all of these; each has its own member below.

- A change of the `logs` variable that leaves one definition as it was follows a null
  pointer (chord/logger.cpp:836), and so does an appender of an unknown type (853).
  `Reconciliation.AsWrittenCompletesIff` says exactly when the callback gets to its end.
  The laws over sequences of changes are about the callback that skips what has not
  changed; where the code completes, the two agree.
- A log definition's level is written out only when it is UNKNOWN (chord/logger.cpp:767
  tests `==` where 788 tests `!=`), and appender levels are written but never read.
  `LogDefines.RoundTripIsExactIff` says which values survive.
- An appender that is detached and attached again keeps its old formatter
  (chord/logger.cpp:292): `FormatterInheritance.StepKeepsInheritanceIff` and
  `AReattachedAppenderIsStale`.
- `addAppender` releases the appender's lock between looking for a formatter and lending
  its own (chord/logger.cpp:295-300), so a formatter given in between is lost:
  `ConcurrentFormatters.OwnFormatterIsKeptIff`, `AGiftInTheGapIsLost`.
- `log` tests the level before it takes the lock (chord/logger.cpp:326-329), so a call
  admitted before a logger's removal can still write, through root:
  `LateLogCalls.RemovedLoggerIsSilentIff`, `NothingLeftToComeIff`.
- A listener that reads its own variable takes its read lock twice, and threads can block
  each other for good exactly where waiting writers go first:
  `NestedReads.ReadingListenersBlockIff`.
- Levels are set and tested without a lock (chord/log.h:130-131, 162-163), a file appender's
  last time is read and written outside its own (chord/logger.cpp:398-403), and the counter
  of listener keys is shared by all variables of a type, each with a lock of its own
  (chord/config.h:377-379). Two threads can race on these, and on nothing else the
  operations share: `DataRaces.RacesIff`.
- A closing brace is read as part of the name in front of it (chord/logger.cpp:520), so
  `%m}` is no directive `m`: `PatternLaws.AClosingBraceIsInTheName`.
- `setValue` announces a change before it takes the write lock (chord/config.h:355-370).
  What a listener sees joins end to end exactly when calls do not overlap:
  `ListenerChains.PairsChainIffNotOverlapping`, and `OverlappingCallsBreakTheChain` for
  runs in which it does not.
- An appender attached to two loggers follows the one that was given a formatter last, so
  reconfiguring one logger can change what another, never named, writes
  (chord/logger.cpp:257-271, 292-303). `Loggers.LoggerManager.OnChange` says exactly which
  appenders of which loggers are reached.
- A listener that throws leaves those called before it told of a value that is not stored
  (chord/config.h:362-370): `ConfigVars.ListenerSeesAChainIff`.
- `fromString` answers false even when it succeeds (chord/config.h:344).
- An unterminated `{` costs the scan its linear time, `PatternLaws.OpenBracesCostTheirSquare`,
  and its percent sign is missing from the result, `Pattern.NothingIsMissingIff`
  (chord/logger.cpp:567-572).
- A second load of a document is silent only if all its values for a variable agree:
  `Configs.ReloadIsIdempotent`.
- A `sem_wait` interrupted by a signal makes the `Thread` constructor throw while the new
  thread still uses the object (chord/thread.cpp:83):
  `ThreadStart.AFailedWaitBreaksTheHandshake`.

## Model

| member | source | states |
|---|---|---|
| Pattern.LexPartitions | chord/logger.cpp:495-584 | the characters and directives read from a pattern, laid end to end, are the pattern |
| Pattern.LexIsTheLexing | chord/logger.cpp:495-584 | a reading meets the declarative rules for characters, directives and unterminated braces if and only if it is the one the scanner computes |
| Pattern.CompilationLosesNothing | chord/logger.cpp:489-588 | without the error markers, literals and directive sources spell the pattern with exactly one percent sign deleted per marker |
| Pattern.TerminatedPatternIsSpelledExactly | chord/logger.cpp:556-566 | when every brace is closed the tokens spell the pattern exactly |
| Pattern.NothingIsMissingIff | chord/logger.cpp:567-572 | what survives without the markers is the whole pattern if and only if there is no marker |
| Pattern.LiteralsAreSeparated | chord/logger.cpp:556-588 | literals are never empty, and no two are adjacent once markers are dropped |
| PatternLaws.ErrorExactly | chord/logger.cpp:567-622 | `m_error` holds if and only if the reading of the pattern has an unterminated brace or a name outside the eleven-entry table |
| PatternLaws.AClosingBraceIsInTheName | chord/logger.cpp:520 | `%m}` reads as one directive with the name `m}`, which is not in the table |
| PatternLaws.AMarkerComesBeforeItsText | chord/logger.cpp:567-588 | in `a%{b` the error text comes first and the literal `a{b` after it |
| PatternLaws.RenderInTurn | chord/logger.cpp:477-485 | no item formats as nothing, and one more item appends what it writes |
| PatternLaws.PrintThenCompile | chord/logger.cpp:489-629 | printing any well-formed token list and compiling the text gives that list back, without error |
| PatternLaws.CompileIsHomomorphism | chord/logger.cpp:477-629 | if two patterns compile and the second starts with a single percent sign, compiling and formatting their concatenation is compiling and formatting each in turn |
| PatternAppend.CompilesInTurnIff | chord/logger.cpp:489-629 | two patterns that compile do so appended, to the items of one and then the other, if and only if one is empty, the second starts with a directive, or the first ends with a directive that does not read on into the second |
| PatternLaws.LinearWithoutUnterminated | chord/logger.cpp:518-554 | with every brace closed the inner loop runs at most as often as the pattern has characters, over the whole scan |
| PatternLaws.QuadraticAtWorst | chord/logger.cpp:518-572 | in general at most a quarter of the square of the pattern's length, which the next row attains |
| PatternLaws.OpenBracesCostTheirSquare | chord/logger.cpp:518-572 | k unclosed braces really cost k squared turns, more than the pattern is long from three on |
| LogFormatters.ScanDirective | chord/logger.cpp:512-554 | the inner loop with its status variable reads the directive that starts at `i`, its name, argument and end, or finds that its brace is not closed, in the number of turns the bound counts |
| LogFormatters.Scan | chord/logger.cpp:489-588 | the outer loop, which resets its own index, yields the triples of the specified tokens, and its error flag is an unterminated brace |
| LogFormatters.LogFormatter.Init | chord/logger.cpp:489-629 | `m_items` and `m_error` end as the compilation of `m_pattern`, within a quarter of the square of its length, and within its length when every brace is closed |
| LogFormatters.LogFormatter.constructor | chord/logger.cpp:471-475 | a constructed formatter is the compilation of its pattern |
| LogFormatters.LogFormatter.Format | chord/logger.cpp:477-485 | the loop writes every item once, in order |
| FiberMachine.StepIsSafe | chord/fiber.cpp:26-189 | from every state of the invariant, no assertion fires in any use the comments allow, the destructor's included, whether the thread ends with its main program or with a finished fiber, and the invariant is kept |
| FiberMachine.Execute | chord/fiber.cpp:26-189 | every legal run, of any length, goes from step to step without an assertion and ends in the invariant |
| FiberMachine.FibersAreCountedAndHeld | chord/fiber.cpp:43-69 | in every run `TotalFibers` is the number of live objects, and a started, unfinished fiber is held by `cur` in its own `MainFunc`, and once more while it is suspended (also lines 151-172) |
| FiberMachine.OnlyFreshFibersAreDestroyed | chord/fiber.cpp:67-87 | the last reference dropped from outside belongs to a fiber that never started, or to main at the end |
| FiberMachine.DropsNeverReachASuspendedFiber | chord/fiber.cpp:67-73 | dropping outside references never destroys a fiber in EXEC, HOLD or READY (also lines 151-189) |
| FiberMachine.OnlySuspendedFibersOutliveTheThread | chord/fiber.cpp:67-87 | when the main program has returned and nobody holds a fiber, main is destroyed and the live objects are exactly the suspended fibers, each held by its own two references |
| FiberMachine.CurrentFiberIsMainOrTheOnlyRunning | chord/fiber.cpp:108-149 | in every run `t_fiber` is main, and no other fiber executes, or it is the one non-main fiber in EXEC |
| FiberMachine.ControlIsDisciplined | chord/fiber.cpp:108-189 | in every run a yield resumes just after the matching `swapIn`, a later `swapIn` resumes just after that fiber's own yield, and `swapIn` returns only when the fiber's own state is HOLD or READY |
| FiberMachine.FinishedFibersNeverReturnToMain | chord/fiber.cpp:60 | with no `uc_link`, a fiber that has finished ends its thread: no further step of the run gives control back to main (also lines 170-189) |
| FiberReferences.OutsideIsCounted | chord/fiber.cpp:47-65 | in every run the references to a fiber held outside its own stack are those made by `new`, returned by `GetThis` and copied, less those dropped; none are left to a fiber that is gone (also lines 139-149) |
| FiberReferences.MainEndsWithTheThreadIff | chord/fiber.cpp:67-87 | in every run, main goes with its thread if and only if every pointer `GetThis` returned, and every copy of one, has been dropped (also lines 139-149) |
| FiberReferences.DropDestroysIff | chord/fiber.cpp:67-87 | in every run, a drop destroys the fiber if and only if it gives back the last reference handed out and the fiber never started, or is main after the thread's end |
| FiberReferences.GetThisReturnsMain | chord/fiber.cpp:139-149 | main comes to be with the first call, executing and held once by the caller; a later call adds a reference to the same fiber and changes nothing else |
| FiberReferences.StatesAndCallbacksFollowTheCalls | chord/fiber.cpp:89-187 | of every fiber and every legal call: reset puts it at INIT, `swapIn` at EXEC, its own yields at READY or HOLD, its end at TERM or, if the callback threw, EXCEPT; it holds the callback last given until that returns normally; calls on others change neither |
| Fibers.FiberThread.GetThis | chord/fiber.cpp:139-149 | creates main, executing, on first use, and hands the caller a reference to the current fiber, which the next rows count |
| Fibers.FiberThread.New | chord/fiber.cpp:47-65 | adds a fiber in INIT with a fresh id, counted |
| Fibers.FiberThread.Reset | chord/fiber.cpp:89-105 | gives a fiber that has not started a new callback and starting point; the source also allows a finished one, which on this thread nobody is left to reset |
| Fibers.FiberThread.Drop | chord/fiber.cpp:67-87 | gives up a reference and destroys the fiber exactly when it was the last |
| Fibers.FiberThread.SwapIn | chord/fiber.cpp:108-121 | saves main, makes the fiber current and executing, and continues it where it was saved |
| Fibers.FiberThread.SwapOut | chord/fiber.cpp:124-132 | saves the fiber and continues main where it was saved |
| Fibers.FiberThread.YieldToReady | chord/fiber.cpp:151-156 | the machine's yield to READY |
| Fibers.FiberThread.YieldToHold | chord/fiber.cpp:158-163 | the machine's yield to HOLD |
| Fibers.FiberThread.EnterMainFunc | chord/fiber.cpp:170-175 | takes the frame's own reference before the callback runs |
| Fibers.FiberThread.FinishMainFunc | chord/fiber.cpp:175-187 | ends in TERM without a callback, or in EXCEPT with it |
| Fibers.FiberThread.ReturnFromMainFunc | chord/fiber.cpp:189 | releases the frame's reference and ends the thread |
| Fibers.FiberThread.ExitThread | chord/fiber.cpp:67-87 | the thread-local main fiber is released and, unless held elsewhere, destroyed with its assertions |
| ConfigVars.ConfigVar.SetValue | chord/config.h:353-372 | an unequal value is announced to every listener once, in ascending order of key, and stored; an equal one does nothing; when a listener throws, those before it have been called and nothing is stored |
| ConfigVars.ConfigVar.FromString | chord/config.h:334-345 | a text that converts is set, one that does not changes nothing, an exception from a listener ends here, and the answer is false in every case |
| ConfigVars.ConfigVar.AddListener | chord/config.h:375-382 | hands out the key after the last one and registers it: with that key it is among the registered of the next rows |
| ConfigVars.ConfigVar.DelListener | chord/config.h:384-388 | removes that key and no other |
| ConfigVars.KeysAreNeverReused | chord/config.h:375-388 | in every run, also one in which other variables of the type use up keys, those handed out ascend strictly and exceed every key there was, deleted ones included |
| ListenerKeys.RegisteredIff | chord/config.h:375-401 | after any calls a listener is registered if and only if it was at the start, or some `addListener` returned its key, and it has been neither deleted nor cleared since |
| ListenerKeys.SetValueTellsTheRegistered | chord/config.h:353-372 | after any calls, `setValue` with another value calls exactly the listeners registered then, once each in ascending order of key, with the old value and the new, and stores it; with the value held it calls nobody |
| ListenerKeys.FromStringIsSetValue | chord/config.h:334-345 | after any calls, a text that converts does what `setValue` does with its value, throwing listeners included |
| ListenerKeys.AThrowStopsTheRound | chord/config.h:353-372 | after any calls, when the listener at a position throws, those up to it have been told what a complete change tells them, and nothing else happens |
| ListenerKeys.OnlyTheRegisteredAreTold | chord/config.h:353-372 | after any calls, no call tells anything to a listener that is not registered then |
| ListenerKeys.TheForgottenAreNeverTold | chord/config.h:384-401 | after `delListener` or `clearListener`, whatever calls follow, the listener taken out is never called again |
| ConfigVars.ListenerSeesAChainIff | chord/config.h:353-372 | over any run, what a continuously registered listener sees joins end to end from the first value to the last, with no pair equal, if and only if it is never told of a value that an exception from a listener then keeps from being stored |
| ConfigVars.FailedConversionsAreInvisible | chord/config.h:334-345 | removing a failed conversion anywhere from a run changes nothing about it |
| ConcurrentConfigVar.EveryRunIsAccounted | chord/config.h:347-401 | in every interleaving each notification carries the value stored at that moment and a different one, and each store follows a complete ascending round, in the same call, over the listeners registered then |
| ConcurrentConfigVar.QuiescentTotals | chord/config.h:353-372 | when no call is running there were as many rounds as stores, and the value is the default or one a complete round announced |
| ConcurrentConfigVar.KeysAfterIff | chord/config.h:375-401 | the listeners in force are those whose addition is recorded with no removal after it |
| ConcurrentConfigVar.AloneItIsSetValue | chord/config.h:353-372 | from any moment at which no call is under way there is a run in which a thread's `setValue` announces its value to all listeners and stores it, or does nothing if it is held already |
| ListenerChains.PairsChainIffNotOverlapping | chord/config.h:353-372 | in every run, between two moments with no `setValue` in progress, the pairs given to a listener registered throughout join end to end from the first value to the last if and only if no call began while another had begun and not yet stored |
| ListenerChains.OverlappingCallsBreakTheChain | chord/config.h:355-370 | for any default and any two other values there is a run from the start in which two calls overlap and the listener is given two pairs that do not join |
| ConfigLoad.LowerCasingIsIdentity | chord/config.cpp:15 | lower-casing leaves every name that survives the filter as it is (also lines 45) |
| ConfigLoad.ListAllMember | chord/config.cpp:12-28 | the recursion that stops at invalid names appends exactly the nodes that flattening everything and then filtering by name would give, which the next rows describe by paths |
| DocumentPaths.EveryNodeIsListedOnce | chord/config.cpp:12-28 | flattening a document lists each of its nodes exactly once, in document order, under the keys that lead to it joined by dots, leading empty keys left out |
| DocumentPaths.EveryValidNodeIsListedOnce | chord/config.cpp:12-28 | what `ListAllMember` lists are exactly the nodes whose dotted name is valid, though it never looks below an invalid one |
| DocumentPaths.OneKeyFurther | chord/config.cpp:25 | a child's name is its key, after its parent's name and a dot unless that name is empty |
| DocumentPaths.NamesAreKeysAndDots | chord/config.cpp:25 | a node's name is its first key that is not empty, then a dot and a key for each step further down |
| DocumentPaths.LetterOfNamesIff | chord/config.cpp:15 | a valid name has small letters but `d`, digits but `9`, dots and underscores, and nothing else |
| DocumentPaths.LoadTakesTheLastOfTheDocument | chord/config.cpp:33-62 | said over paths: a variable is left alone if no node of its name converts, and otherwise gets the value of the last one that does, in document order, from a scalar's own text or the text of the whole node |
| DocumentPaths.LoadCallsFromStringForEachNode | chord/config.cpp:33-62 | to a variable and its listeners a load is one `fromString` call for each node of its name, in document order |
| DocumentPaths.ThePortIsLoaded | bin/conf/test.yml:17-18 | the port in the section `system` is loaded into the variable `system.port` |
| Configs.LoadSetsTheLastConvertingValue | chord/config.cpp:33-62 | each variable ends with the last value the document gives it that converts, and is left alone if there is none or if its name is empty |
| Configs.ReloadIsIdempotent | chord/config.cpp:33-62 | a second load never changes a value, and calls no listener if and only if there is none or all values given are equal |
| Configs.ReloadIsSilentWithoutDuplicates | chord/config.cpp:33-62 | in particular when no two listed nodes have the variable's name |
| Configs.Config.Lookup | chord/config.h:414-451 | returns the variable of that name and type, refuses a name of another type or outside the alphabet, or registers a new variable, and changes nothing else |
| Configs.Config.LoadFromYaml | chord/config.cpp:33-62 | the loop over listed nodes takes all variables to the loaded state, which the rows of DocumentPaths describe from the document alone |
| LexicalCasts.EncodeThenDecode | chord/config.h:87-305 | for every nesting of containers over leaves that round trip, and any iteration order of unordered ones, decoding an encoding gives the value back; empty containers are Null |
| LexicalCasts.EncodeValue | chord/config.h:106-305 | the encoding loops produce such an encoding |
| LexicalCasts.EncodeSet | chord/config.h:179-213 | each member is encoded once |
| LexicalCasts.EncodeMap | chord/config.h:254-305 | each entry is encoded under its key |
| LexicalCasts.DecodeValue | chord/config.h:87-288 | the decoding loops compute the specified decoding, failing exactly when an element does not convert |
| LexicalCasts.DecodeEach | chord/config.h:87-141 | elements are converted in order, and a failure anywhere is a failure |
| LexicalCasts.DecodeIntoMap | chord/config.h:236-288 | the loop over entries computes the specified decoding of a map, failing at the first entry that does not convert |
| LexicalCasts.DecodeKeepsTheFirst | chord/config.h:236-288 | for every node, decoding a map fails if and only if some entry does not convert, and otherwise holds under each key what the first entry with that key converts to |
| LexicalCasts.SequenceShape | chord/config.h:106-177 | a sequence is written item by item in order, and a container is written as Null exactly when it is empty |
| LexicalCasts.SetShape | chord/config.h:199-251 | a set is written as a sequence of as many nodes as it has members, each the encoding of one |
| LexicalCasts.MapShape | chord/config.h:254-305 | a map is written as the encodings of its entries under their keys |
| LexicalCasts.SequencesAreRead | chord/config.h:87-177 | a vector or list is read from a node's items in order and fails if and only if one of them does; Null and a scalar read as empty, a map with entries fails |
| LexicalCasts.SetsAreRead | chord/config.h:179-251 | a set is what the vector read from the same node has as members |
| LexicalCasts.MapsAreRead | chord/config.h:236-305 | a map holds under each key what the first entry with it converts to, and fails if and only if one entry does; a list with items fails |
| LogDefines.InsertKeepsTheFirst | chord/logger.cpp:677-680 | inserting keeps the set in ascending order of name and adds the definition only if the name is new (also lines 750) |
| LogDefines.EncodeThenDecode | chord/logger.cpp:685-807 | for every set, decoding what was encoded keeps names, logger formatters, and the file and stdout appenders in order with files and file formatters; levels, stdout formatters and other appender types are lost |
| LogDefines.RoundTripIsExactIff | chord/logger.cpp:685-807 | the round trip returns the set itself if and only if every definition is plain |
| LogDefines.RoundTripIsIdempotent | chord/logger.cpp:685-807 | a second round trip changes nothing |
| LogDefines.ALevelIsLost | chord/logger.cpp:767-770 | the example: a definition with level ERROR comes back with level UNKNOWN |
| LogDefines.DecodeKeepsTheFirst | chord/logger.cpp:688-753 | for every document, decoding throws if and only if reading some element does, and otherwise holds, in ascending order, exactly the first definition of each name |
| LogDefines.LoadedValuesRoundTripIff | chord/logger.cpp:685-807 | no document gives an appender a level, or a formatter unless it writes to a file; writing a loaded value and loading it again gives it back if and only if no level was given and no type was unknown |
| LogDefines.EncodeAll | chord/logger.cpp:757-807 | the encoding loops compute the specified node |
| LogDefines.DecodeAll | chord/logger.cpp:685-754 | the decoding loops, with the entries they skip, compute the specified set |
| LogDocuments.LevelNames | chord/logger.cpp:14-34 | levels are read from names all in upper or all in lower case, any other text is UNKNOWN, and UNKNOWN to FATAL ascend, below the level of removed loggers |
| LogDocuments.LessIsLexicographic | chord/logger.cpp:677-680 | definitions are ordered by the first character in which their names differ, a shorter name first |
| LogDocuments.FindIsTheFirst | chord/logger.cpp:688-753 | a key is looked up at its first entry, and is absent if and only if there is none |
| LogDocuments.AppenderMeansIff | chord/logger.cpp:713-744 | a node is read as an appender if and only if it names its type; a file appender needs its file and only it may have a formatter; another type but stdout reads as type 0 |
| LogDocuments.DefinitionMeansIff | chord/logger.cpp:688-753 | a node is read as a definition if and only if it has a name, with level, formatter and appenders optional, each from its own key |
| LogDocuments.EncodedDefineShows | chord/logger.cpp:757-807 | what is written of a definition, key by key: the level only when UNKNOWN, the formatter unless empty |
| LogDocuments.EncodedAppenderShows | chord/logger.cpp:776-800 | what is written of an appender's definition, key by key |
| FormatterInheritance.StepKeepsInheritanceIff | chord/logger.cpp:54-71 | for loggers and appenders shared in any way, an operation keeps every attached appender on its own formatter or on its logger's current object if and only if a condition on the state before it holds (also lines 257-322) |
| FormatterInheritance.NeighboursAreUntouchedIff | chord/logger.cpp:257-271 | giving one logger a formatter changes nothing for the appenders of the others if and only if every appender it shares has its own or holds that formatter already |
| FormatterInheritance.DisciplinedRunsInherit | chord/logger.cpp:54-71 | in every run with formatters that are not null and appenders attached once, each attached appender has a formatter, and without its own shares its logger's current object (also lines 257-322) |
| FormatterInheritance.OwnFormatterIsTheLastGiven | chord/logger.cpp:54-66 | in every run of one call at a time, an appender's own formatter is the one last given to it, whatever its loggers did (also lines 257-303) |
| FormatterInheritance.AReattachedAppenderIsStale | chord/logger.cpp:292-322 | an appender taken out and put back after its logger got a new formatter keeps the old one |
| ConcurrentFormatters.OwnFormatterIsKeptIff | chord/logger.cpp:292-303 | in every interleaving of any number of threads, an appender's own formatter has been the one last given to it at every moment if and only if none was given to it between a check that found none and the assignment of another (also lines 54-66, 257-271) |
| ConcurrentFormatters.AGiftInTheGapIsLost | chord/logger.cpp:295-300 | the run in which it goes wrong: formatter 20 is given in the gap, and the appender ends with the logger's 10, marked as its own |
| ConcurrentFormatters.FreeLoggersInherit | chord/logger.cpp:257-322 | in every interleaving of the intended use, whenever a logger's lock is free all its appenders have a formatter, and those without their own share exactly the object the logger holds |
| ConcurrentFormatters.AddAloneIsOneStep | chord/logger.cpp:292-303 | an `addAppender` that nobody interrupts is the one operation of the sequential laws |
| ConcurrentFormatters.SpreadAloneIsOneStep | chord/logger.cpp:257-271 | and so is `setFormatter`, whose loop visits one appender at a time |
| ConcurrentFormatters.OtherCallsAreOneStep | chord/logger.cpp:54-66 | giving an appender its own formatter, detaching one and detaching all are the operations of the sequential laws (also lines 305-322) |
| Reconciliation.ReconcileByName | chord/logger.cpp:821-880 | one change, seen from each logger: changed definitions applied, unchanged skipped, removed silenced, all others left |
| Reconciliation.EveryHistoryEndsAsDefined | chord/logger.cpp:815-884 | after any sequence of changes with known appender types, loggers sharing no appender, each defined logger has exactly the level and appenders of its latest definition, a removed one level 100 and none, the formatter is the last valid one ever configured, and loggers never named are untouched; for the code as written, by the next row, whenever it survives |
| Reconciliation.AsWrittenOverHistoriesIff | chord/logger.cpp:815-884 | over any sequence of values of the variable, the code as written, called when the value changes, survives if and only if every change completes, and then leaves the loggers as the guarded callback does |
| Reconciliation.HistoryDoesNotMatter | chord/logger.cpp:815-884 | two processes that end with the same definitions agree on every defined logger with a valid formatter, however they got there |
| ConfiguredLoggers.ValidPatternIff | chord/logger.cpp:279-290 | a pattern may be installed if and only if it is not empty and its declarative reading has no open brace and no name outside the eleven of the table (also lines 838-866) |
| ConfiguredLoggers.AChangeLeavesLoggersAsDefined | chord/logger.cpp:836-868 | after a change on top of any others, a defined logger has its level and, one for one, its appenders with type, file and level; its pattern is the definition's if that is not empty and reads clear, else what it was; an appender has its own pattern and flag under the same test, else the logger's pattern |
| ConfiguredLoggers.AChangeSilencesOrLeaves | chord/logger.cpp:870-880 | a logger not defined now has level 100, no appenders and its old pattern if it ever was defined, and is otherwise untouched |
| ConfiguredLoggers.EveryFormatterCompiles | chord/logger.cpp:815-884 | from start-up, after any sequence of changes, every logger and every appender holds a formatter, and every one compiled without error |
| Reconciliation.RemovedLoggersAreSilent | chord/logger.cpp:870-880 | a removed logger admits no event of any level, not even for root to write; calls admitted earlier are in LateLogCalls (also lines 324-343) |
| LateLogCalls.RemovedLoggerIsSilentIff | chord/logger.cpp:324-343 | from a logger's removal on, in every interleaving in which it stays removed, no call to it ends if and only if every call admitted before is still on its way |
| LateLogCalls.NothingLeftToComeIff | chord/logger.cpp:324-343 | a removed logger can be heard of again if and only if some call had been admitted before its removal and not yet ended |
| LateLogCalls.LateCallEnds | chord/logger.cpp:324-343 | such a call gets through in a run that exists: with the logger's appenders gone, root writes it if root admits it |
| LateLogCalls.AloneItIsEmit | chord/logger.cpp:324-343 | a `log` call that nobody interrupts writes what the sequential emission says |
| Reconciliation.DefinedLoggersEmitAsDefined | chord/logger.cpp:836-868 | what a defined logger with appenders writes is given by its definition and its last valid formatter (also lines 324-343) |
| ConfiguredLoggers.DefinedAppendersWrite | chord/logger.cpp:836-868 | one more appender adds one line if the event's level is not below its own, with its type, its file and the pattern that its formatter's reading decides, and otherwise nothing (also lines 394-450) |
| ConfiguredLoggers.DefinedLoggersFallBackToRoot | chord/logger.cpp:324-343 | over histories, a defined logger without appenders writes nothing if the event is below its level or below root's, and otherwise what root's definition says |
| ConfiguredLoggers.WithoutAppendersAsRoot | chord/logger.cpp:324-343 | below its level a logger is silent; with appenders it leaves the event to them; without, it does just what root does with the event, root's own level test included |
| ConfiguredLoggers.AppendersWriteInTurn | chord/logger.cpp:331-336 | the output of a list of appenders is that of its parts, one after the other |
| ConfiguredLoggers.NewLoggersWriteToTheConsole | chord/logger.cpp:632-653 | before any configuration root and every new logger write one line to the console, in the default pattern, for events from DEBUG up |
| ShippedLogConfig.TheFileAsDefinitions | bin/conf/log.yml:1-15 | the list in the shipped file is read as its two definitions |
| ShippedLogConfig.WhatTheFileMakesTheLoggersWrite | bin/conf/log.yml:1-15 | with the shipped file loaded, an event of `system` goes to `system.txt` with its level and to the console without, one of `root` to `root.txt` and the console, unless below INFO |
| Reconciliation.AsWrittenCompletesIff | chord/logger.cpp:821-868 | the callback as written gets to its end if and only if no definition of the new set is in the old one and every appender type is known; then it does what the guarded one does |
| Loggers.LogAppender.SetFormatter | chord/logger.cpp:54-66 | sets the formatter and the own flag, as the operation of the formatter model |
| Loggers.LogAppender.Log | chord/logger.cpp:394-410 | writes the event with the appender's formatter exactly when the level admits it (also lines 443-450) |
| Loggers.LogAppender.ToYaml | chord/logger.cpp:413-430 | the specified dump, with the formatter only if it is the appender's own (also lines 452-469) |
| Loggers.Logger.SetFormatter | chord/logger.cpp:257-271 | replaces the logger's formatter and that of exactly the attached appenders without their own |
| Loggers.Logger.SetPattern | chord/logger.cpp:279-290 | a valid pattern replaces the formatter, an invalid one changes nothing |
| Loggers.Logger.AddAppender | chord/logger.cpp:292-303 | called alone, attaches at the end, and lends the logger's formatter only to an appender that has none |
| Loggers.Logger.DelAppender | chord/logger.cpp:311-322 | removes the first occurrence and no other |
| Loggers.Logger.ClearAppenders | chord/logger.cpp:305-309 | detaches all |
| Loggers.Logger.Log | chord/logger.cpp:324-343 | writes to the logger's appenders in order or, when there are none, hands the event to root, which tests its level again; wherever the formatters come from |
| Loggers.Logger.Reconfigure | chord/logger.cpp:836-868 | brings the logger to its definition, and fails exactly at an appender of unknown type; of the appenders it had, those without their own are given the new formatter if it is valid, which ConfiguredLoggers.ValidPatternIff decides by its reading |
| Loggers.Logger.ToYaml | chord/logger.cpp:366-386 | the specified dump of the logger |
| Loggers.LoggerManager.constructor | chord/logger.cpp:632-639 | a new manager holds root alone, with one stdout appender |
| Loggers.LoggerManager.GetLogger | chord/logger.cpp:640-653 | returns the logger of that name, or adds a default one that falls back to root, and changes no other |
| Loggers.LoggerManager.OnChange | chord/logger.cpp:815-884 | on the live objects, the two loops get to their end if and only if no definition is unchanged and every type is known; then, appenders shared or not, a named logger is its old state configured by its definition, a removed one its old state silenced, any other keeps its level, formatter and list, and an appender there was keeps its formatter if and only if it has its own or is attached to no logger whose definition brings a valid one; where loggers share no appender the result is that of the callback on values |
| Loggers.LoggerManager.EmittedAsViewed | chord/logger.cpp:324-343 | what a logger object writes, appenders shared or not, is what the emission laws say of its manager's state |
| Loggers.LoggerManager.ToYaml | chord/logger.cpp:887-898 | all loggers, dumped in ascending order of name |
| LoggerDump.DumpThenLoad | chord/logger.cpp:887-898 | loading the dump of any regular loggers into any process that has no definitions yet completes, even as written, and gives each its level, formatter and appenders back, except appender levels, stdout formatters and levels without a name (also lines 366-386, 413-469, 685-754, 815-884) |
| LoggerDump.RestoresExactlyIff | chord/logger.cpp:366-469 | a logger comes back as it was if and only if none of those were there to lose (also lines 685-754) |
| LoggerDump.EveryHistoryStaysRegular | chord/logger.cpp:815-884 | every sequence of changes with known types keeps all loggers regular |
| LoggerDump.AnyHistoryDumpsAndLoads | chord/logger.cpp:815-898 | so a process configured by any sequence of changes can be dumped and loaded elsewhere with just those losses (also lines 366-469) |
| LogDocuments.DumpedAppenderShows | chord/logger.cpp:413-430 | what a dump shows of an appender, key by key: its level unless UNKNOWN, its own formatter's pattern and no lent one (also lines 452-469) |
| LogDocuments.DumpedLoggerShows | chord/logger.cpp:366-386 | what a dump shows of a logger, key by key: its level unless UNKNOWN, its pattern, its appenders in order |
| LockOrder.NoRelock | chord/thread.h:22-129 | in every state of the invariant no thread asks for a lock it holds, and what it asks for ranks above all it holds (also lines 226-250) |
| LockOrder.Progress | chord/thread.h:58-129 | some thread can step unless all have finished, whether or not waiting writers hold readers back (also lines 164-250) |
| LockOrder.DeadlockFree | chord/thread.h:58-129 | for any number of threads running rank-respecting code, every reachable state keeps mutual exclusion, is not stuck and can be run to completion (also lines 164-250) |
| LockOrder.RunsAreBounded | chord/thread.h:22-129 | no run takes more steps than the lock operations its threads hold |
| LockedOperations.EveryOperationRespectsRank | chord/logger.cpp:257-343 | every operation of registry, variables, manager, loggers and appenders nests its locks by rank, if user callbacks do (also lines 640-653, 887-898) |
| LockedOperations.TheSystemIsDeadlockFree | chord/config.h:353-451 | any number of threads running any such operations never deadlock and never lock twice |
| LockedOperations.ListenerOnItsOwnVariableIsStuck | chord/config.h:356-378 | the proviso is needed: a listener that adds a listener to its own variable blocks its thread for good |
| DataRaces.RacesIff | chord/config.h:347-451 | for any number of threads running any of the operations, under either lock policy: a state in which two are about to access one datum, one of them to write it, is reachable if and only if the datum is a level, the counter of listener keys or a file appender's last time (also chord/logger.cpp:54-71, 257-450, 632-653, 815-898) |
| DataRaces.GuardedDataNeverRace | chord/config.h:347-451 | variables, values, listeners, the loggers' table, formatters, lists of appenders and file streams are never raced on (also chord/logger.cpp:54-71, 257-450, 640-653) |
| DataRaces.SetValueActs | chord/config.h:353-372 | `setValue` reads value and listeners and calls these under the read lock, gives it up, and stores under the write lock |
| DataRaces.AddAppenderActs | chord/logger.cpp:292-303 | `addAppender` looks for a formatter in one hold of the appender's lock and lends one in another, both under the logger's |
| DataRaces.OneAccessOperations | chord/config.h:347-401 | the operations that make one access do so under its lock, held shared to read a variable and exclusively otherwise (also chord/logger.cpp:54-71, 273-277, 305-322, 432-441) |
| NestedReads.ReadingListenersBlockIff | chord/config.h:347-372 | with any number of threads whose listeners read their own variable, a state in which nobody can go on is reachable if and only if waiting writers go first |
| ScopedLocks.GuardLifeIsBalanced | chord/thread.h:22-56 | however a guard is locked and unlocked by hand, its mutex sees acquisitions and releases in strict alternation, ending released |
| ScopedLocks.ScopedLock.Lock | chord/thread.h:36-43 | acquires unless it already holds the lock |
| ScopedLocks.ScopedLock.Unlock | chord/thread.h:45-52 | releases only what it holds |
| ScopedLocks.ScopedLock.Destroy | chord/thread.h:32-35 | completes the balanced life |
| ScopedLocks.CasLockIsExclusive | chord/thread.h:252-277 | in every interleaving of any number of threads at most one guard holds the lock, the flag says whether one does, and acquisitions exceed releases by that |
| ScopedLocks.SpinTakesAFreeLockIff | chord/thread.h:252-277 | in every run a turn of the loop takes the lock if and only if no guard holds it, and otherwise changes nothing |
| ScopedLocks.NoGuardNoLock | chord/thread.h:32-35 | when all guards are gone the lock is free (also lines 252-277) |
| ThreadStart.ConstructorReturnsAfterHandshake | chord/thread.cpp:63-124 | in every interleaving, once the constructor has returned the new thread has stored its id and taken the callback; `run` never uses a destroyed object; the callback given is called, once; the thread is joined or detached exactly once |
| ThreadStart.NoAccessAfterNotify | chord/thread.cpp:109-124 | after its notify `run` uses no field of the object |
| ThreadStart.HandshakeMakesProgress | chord/thread.cpp:63-124 | neither side is left waiting |
| ThreadStart.AFailedWaitBreaksTheHandshake | chord/thread.cpp:24-33 | if `sem_wait` fails, the new thread can use an object that is gone (also lines 83) |
| ThreadStart.HandshakeIsSafeIff | chord/thread.cpp:24-33 | every run is free of use after the end if and only if `sem_wait` cannot fail (also lines 63-84, 109-124) |
| ThreadStart.RunIsSafeIff | chord/thread.cpp:63-124 | in any single run the object is used after its end if and only if `run` takes a step that uses it after the constructor has thrown |
| ThreadStart.SemaphoreIsBalanced | chord/thread.cpp:13-40 | in every run the value is the initial count plus posts less completed waits, and nobody waits while it is positive |
| ThreadStart.Thread.Run | chord/thread.cpp:109-124 | up to the callback, does what the machine's six steps do to the object |
| ThreadStart.Thread.AwaitStart | chord/thread.cpp:83 | the constructor's wait takes the post that `run` made |
| ThreadStart.Thread.Join | chord/thread.cpp:94-107 | gives the handle up once, and does nothing the second time |

## Left out

- YAML text and `boost::lexical_cast`: documents are node trees, loading a dump gives the same tree, and leaf conversions are abstract partial functions.
- Reading a node as text: a node that is not a scalar throws, also Null, which newer versions of the YAML library read as "null"; a key that is not a scalar has the empty text.
- LexicalCasts.DecodeValue: a non-empty map read as a sequence, and a non-empty sequence read as a map, fail; the library's own rules for numeric keys are not modelled. The same holds of LogDefines.DecodeAll.
- pthread, semaphore, spinlock and ucontext internals, and stack memory: abstract lock states, counters and resume points. `sem_post` overflow and failures of `pthread_join` are not modelled.
- FiberMachine.StepIsSafe: `GetThis` is called from main, and from a fiber only by its own frames, a copy taken there being `DoShare`; `swapIn` is called from main with a reference held; main does not yield, a fiber does not swap another in or move to another thread, and `swapOut` is not called directly. These are preconditions, as the source's comments say.
- ConfigVars.KeysAreNeverReused: the counter at chord/config.h:377 is shared by all variables of a type without a common lock, so threads can race on it (DataRaces.RacesIff); keys used up elsewhere are followed, but one thread at a time.
- ConfigVars.ListenerSeesAChainIff: listeners do not call back into their own variable, which would block on its lock.
- Configs.Config.Lookup: variables of different types share one registry through a type tag; all hold values of one Dafny type. The one-argument `Lookup`, `toString` and `Visit` are modelled only for their locks.
- Configs.ReloadIsIdempotent: listeners do not change configuration during a load, and do not throw. Nor do they throw in ListenerChains and ConcurrentConfigVar.
- LockedOperations.EveryOperationRespectsRank: what each operation does to locks and shared data is written out from the source beside the classes, not derived from their methods, which hold no lock fields. The console stream, the creation of objects no other thread has yet and the names and types that never change are not among the data.
- LockOrder.Progress: fairness between threads, and how long a thread spins, are not modelled; some thread can always step.
- Reconciliation.EveryHistoryEndsAsDefined: states the guarded callback, which skips unchanged definitions, for sets whose appender types are known and loggers that share no appender; the code as written is in Reconciliation.AsWrittenCompletesIff, and shared appenders are in Loggers.LoggerManager.OnChange. The line the callback logs through root first is not modelled.
- The laws of FormatterInheritance, Reconciliation, LoggerDump and Loggers are about one call at a time; what other threads can do within a call is in ConcurrentFormatters and LateLogCalls. There the assignment of a level and a whole visit to one appender are single steps, and root's part of a call is one step.
- Loggers.LogAppender.Log: the text of a line and the reopening of files are I/O; what is followed is which appender writes with which pattern.
- ThreadStart.NoAccessAfterNotify: is about `run` itself; a callback that calls `Thread::SetName` uses the object and needs it to be alive.
- Format items are names with arguments; dates, `vasprintf`, the level names' other uses, singletons, backtraces and null locks are not modelled.
- `isalpha` is taken in the C locale. The unreachable state 2 of the scanner (chord/logger.cpp:573-582) is left out.
- Static initialisation order and the locks taken during it.
