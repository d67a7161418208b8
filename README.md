# chatunitest-core: task orchestration, prompt budget, repair and symbol frames in Dafny

This project models four pieces of chatunitest-core, a generator of unit tests for Java
projects that asks a chat model for tests:

- **Task** (`api/Task.java`): the three entry points `startMethodTask`,
  `startClassTask` and `startProjectTask`.
  - Each one checks the build, skips `pom` projects and resolves a bare class name through
    the simple-name to qualified-names map.
  - `startMethodTask` selects methods by numeric id (the first signature carrying that id)
    or by name (every overload).
  - `startProjectTask` derives class names from source paths, applies the class filter and
    calls the runner.
  - What a task logs and asks the runner to do is modelled as a list of events. How it ends
    (returned, or an exception escaped) is an `Outcome`.
- **Symbol frame** (`obfuscator/frame/SymbolFrame.java`, `Symbol.java`): a class with six
  symbol sets plus the class, super-class and interface names.
  - `add*` and `merge` are set insertion and set union.
  - `filterSymbolsByGroupId` shortens in-group names and drops out-of-group interfaces and
    symbols in place.
  - `toObNames` collects the names to obfuscate.
  - `splitTypeName`, `isClassInGroup`, the static `isInGroup` and `Symbol.isInGroup` are
    functions on strings.
- **Prompt constructor** (`impl/PromptConstructorImpl.java`): a class that stores the
  generated messages and adds their token estimate to a Java `int` counter that is never
  reset. Java `int` wrap-around is modelled.
  - `isExceedMaxTokens` is a strict comparison with the ceiling.
  - `setFullTestName` derives the simple test name and passes the full name on to the
    prompt info.
- **Repair** (`impl/RepairImpl.java`): the three-step rule-based rewrite, and one round of
  model-based repair with four outcomes:
  - the test passes;
  - the prompt is over budget;
  - extraction is empty;
  - new code is returned.

Java `String` behaviour the code depends on is written out in `JavaLang`:

- `contains`;
- `indexOf` and `lastIndexOf` answering -1 when the character is absent;
- `substring` bounds;
- `split` dropping trailing empty strings.

Exceptions are values: `Result`, `Outcome` and the `Escape` flow of a loop. An
`IOException` is caught where the Java code catches it. A `RuntimeException` escapes where
it escapes.

Collaborators whose code is not part of the model are constant function values or fields of
the environment value `Tasks.Env`:

- the runner;
- the class-info and method-info lookups;
- `Counter.filter`;
- `TokenCounter.countToken`;
- `PromptGenerator`;
- `MethodRunner.runTest`;
- the chat model;
- `extractCodeByResponse`;
- `changeTestName`, `repairPackage` and `repairImports`.

Files: `wrappers.dfy` (Option, Result), `java_lang.dfy`, `dto.dfy` (ClassInfo, Message),
`task.dfy`, `symbol.dfy`, `symbol_frame.dfy`, `prompt_constructor.dfy`, `repair.dfy`.

## Model

| member | source | states |
|---|---|---|
| Tasks.IsFullName | src/main/java/zju/cst/aces/api/Task.java:274-279 | a name is qualified exactly when it contains a `.` |
| Tasks.GetFullClassName | src/main/java/zju/cst/aces/api/Task.java:251-266 | a qualified name is returned unchanged without reading the map; an unreadable map is an IOException; more than one candidate is the ambiguity error and only then; an empty candidate list fails at `get(0)` and only then; a single candidate is the answer; an unknown simple name is returned unchanged |
| Tasks.GetFullClassNameSucceeds | src/main/java/zju/cst/aces/api/Task.java:251-266 | resolution succeeds exactly for a qualified name, or for a simple name the readable map lists with no entry or one candidate |
| Tasks.AmbiguousNeverGuessed | src/main/java/zju/cst/aces/api/Task.java:258-262 | an ambiguous simple name never resolves to any of its candidates |
| Tasks.ResolvedNameIsStable | src/main/java/zju/cst/aces/api/Task.java:251-254 | resolving a qualified result again, even with no map at all, gives the same answer |
| Tasks.CheckTargetFolder | src/main/java/zju/cst/aces/api/Task.java:286-295 | a `pom` project always passes; any other passes exactly when its build path exists |
| Tasks.IsDigits | src/main/java/zju/cst/aces/api/Task.java:79 | `matches("\\d+")`: non-empty and every character an ASCII digit |
| Tasks.DotAfterLastSeparator | src/main/java/zju/cst/aces/api/Task.java:171-172 | a dot follows the last `/` exactly when the last dot's index is greater than the last `/`'s |
| Tasks.ClassNameOf | src/main/java/zju/cst/aces/api/Task.java:171-172 | the derived class name holds no `/` and is shorter than the path; reversed `substring` bounds are an index error |
| Tasks.ClassNameOfFails | src/main/java/zju/cst/aces/api/Task.java:171-172 | deriving the class name throws exactly when no `.` follows the last `/` |
| Tasks.ClassNameOfSourcePath | src/main/java/zju/cst/aces/api/Task.java:171-172 | the path `dir/Name.ext` yields the class name `Name` |
| Tasks.SigHead | src/main/java/zju/cst/aces/api/Task.java:98 | `split("\\(")[0]` is the text before the first `(`; it throws exactly for a non-empty signature made only of `(` |
| Tasks.SigHeadOfSignature | src/main/java/zju/cst/aces/api/Task.java:98 | the head of `name(params)` is `name` |
| Tasks.FirstWithId | src/main/java/zju/cst/aces/api/Task.java:81-86 | the result is the first position carrying the id; none exactly when no signature carries it |
| Tasks.FindMethodById | src/main/java/zju/cst/aces/api/Task.java:79-86 | the id loop with `break` stops at the first signature carrying the id |
| Tasks.RunOnce | src/main/java/zju/cst/aces/api/Task.java:90-95 | one `runMethod` call, followed by the logged failure of that signature exactly when the runner throws |
| Tasks.ChainStep | src/main/java/zju/cst/aces/api/Task.java:97-110 | after a prefix that ran to its end, one more loop pass appends its events and takes its ending |
| Tasks.ChainStops | src/main/java/zju/cst/aces/api/Task.java:97-110 | once a pass throws, the later passes add nothing |
| Tasks.ChainDone | src/main/java/zju/cst/aces/api/Task.java:170-186 | a loop runs to its end exactly when every pass does |
| Tasks.ChainEventsFromPasses | src/main/java/zju/cst/aces/api/Task.java:170-186 | every event of a loop comes from one of its passes |
| Tasks.ChainKeepsEvents | src/main/java/zju/cst/aces/api/Task.java:170-186 | a loop that runs to its end keeps every event of every pass |
| Tasks.OverloadPasses | src/main/java/zju/cst/aces/api/Task.java:97-110 | the name loop has one pass per signature, in order |
| Tasks.RunOverload | src/main/java/zju/cst/aces/api/Task.java:98-109 | one pass of the name loop: another method is skipped; a null method info stops the loop; a failing head throws; otherwise the runner is called and its exception logged |
| Tasks.RunOverloads | src/main/java/zju/cst/aces/api/Task.java:97-110 | the name loop runs its passes in order until one of them stops |
| Tasks.RunsOfRunOnce | src/main/java/zju/cst/aces/api/Task.java:90-91 | one runner call asks for exactly its signature |
| Tasks.MatchingMembers | src/main/java/zju/cst/aces/api/Task.java:97-98 | the overloads are exactly the signatures whose head equals the name |
| Tasks.OverloadsRunMatching | src/main/java/zju/cst/aces/api/Task.java:97-110 | over well-formed signatures, the name loop runs to its end and calls the runner for exactly the matching overloads, in order, even when some calls throw |
| Tasks.OverloadStepRuns | src/main/java/zju/cst/aces/api/Task.java:98-109 | a well-formed signature's pass goes on, and runs the signature exactly when its head matches |
| Tasks.MethodTask | src/main/java/zju/cst/aces/api/Task.java:59-69 | a failed build check, or `pom` packaging, ends the task before parsing or running anything |
| Tasks.MethodTaskRunsOnlyResolved | src/main/java/zju/cst/aces/api/Task.java:59-120 | a method is run only when the build check passed, the project is not `pom` and the class name resolved to a known class |
| Tasks.MethodTaskById | src/main/java/zju/cst/aces/api/Task.java:79-119 | id selection returns normally; it runs just the first signature carrying the id and ends with "Generation finished", or else runs nothing and ends with "Method not found" |
| Tasks.MethodTaskByName | src/main/java/zju/cst/aces/api/Task.java:96-119 | name selection over well-formed signatures runs every matching overload once, in order, and ends with "Generation finished" |
| Tasks.StartMethodTask | src/main/java/zju/cst/aces/api/Task.java:59-120 | the imperative `startMethodTask` produces exactly the events and ending of `MethodTask` |
| Tasks.StartClassTask | src/main/java/zju/cst/aces/api/Task.java:127-147 | a failed build check or `pom` packaging returns early; the resolved class is run, and no other; an unreadable class map logs the class as not found and finishes normally; what escapes is a runner exception or the resolution error; a normal return ends with an early exit or "Generation finished" |
| Tasks.ClassTaskRunsExactlyResolved | src/main/java/zju/cst/aces/api/Task.java:127-147 | a class is run exactly when the checks pass and the name resolves to that class |
| Tasks.ProjectStep | src/main/java/zju/cst/aces/api/Task.java:171-185 | a project pass runs a class only when the derived name resolves to a known class that the filter accepts |
| Tasks.ResolvedClassStep | src/main/java/zju/cst/aces/api/Task.java:174-182 | once resolved, a class is run exactly when its class info exists and the filter accepts it; otherwise it is logged as failed or skipped |
| Tasks.ProjectPasses | src/main/java/zju/cst/aces/api/Task.java:170-186 | the project loop has one pass per source path, in order |
| Tasks.ProjectRunsOnlyTestable | src/main/java/zju/cst/aces/api/Task.java:170-186 | every class the sequential loop runs is accepted by the filter and comes from one of the paths |
| Tasks.ProjectRunsEveryTestable | src/main/java/zju/cst/aces/api/Task.java:170-186 | when the loop runs to its end, every path that resolves to a known, accepted class has been run |
| Tasks.ProjectTask | src/main/java/zju/cst/aces/api/Task.java:152-190 | a failed build check or `pom` packaging returns early; with multithreading on, all paths go to the worker pool and the task finishes |
| Tasks.RunProjectClass | src/main/java/zju/cst/aces/api/Task.java:171-185 | the imperative loop body with `continue` does exactly one project pass |
| Tasks.RunProjectClasses | src/main/java/zju/cst/aces/api/Task.java:170-186 | the sequential loop runs its passes in order until one of them lets an exception escape |
| Tasks.StartProjectTask | src/main/java/zju/cst/aces/api/Task.java:152-190 | the imperative `startProjectTask` produces exactly the events and ending of `ProjectTask` |
| Symbols.IsInGroup | src/main/java/zju/cst/aces/api/impl/obfuscator/frame/Symbol.java:50-57 | an empty id list gives false; true only when some id occurs in the owner or the type; a null type can throw, and only when the list is non-empty |
| Symbols.IsInGroupIff | src/main/java/zju/cst/aces/api/impl/obfuscator/frame/Symbol.java:50-57 | with a type present, true exactly when some id occurs in the owner or the type |
| Symbols.IsInGroupNullDescriptor | src/main/java/zju/cst/aces/api/impl/obfuscator/frame/Symbol.java:52 | with a null type, the first id decides: true if the owner contains it, otherwise a NullPointerException |
| Symbols.IsInGroupMonotone | src/main/java/zju/cst/aces/api/impl/obfuscator/frame/Symbol.java:50-57 | with a type present, a symbol in the group of some ids stays in the group of any list containing them |
| Symbols.IsInGroupAppend | src/main/java/zju/cst/aces/api/impl/obfuscator/frame/Symbol.java:50-57 | appending ids keeps any symbol in the group, even one with a null type |
| SymbolFrames.SymbolFrame.constructor | src/main/java/zju/cst/aces/api/impl/obfuscator/frame/SymbolFrame.java:18-50 | a new frame has null names and six empty sets |
| SymbolFrames.SymbolFrame.AddFieldDef | src/main/java/zju/cst/aces/api/impl/obfuscator/frame/SymbolFrame.java:57-59 | only the field-definition set grows, by the symbol; the other sets and the names are unchanged |
| SymbolFrames.SymbolFrame.AddFieldUse | src/main/java/zju/cst/aces/api/impl/obfuscator/frame/SymbolFrame.java:66-68 | only the field-use set grows, by the symbol; the other sets and the names are unchanged |
| SymbolFrames.SymbolFrame.AddVarDef | src/main/java/zju/cst/aces/api/impl/obfuscator/frame/SymbolFrame.java:75-77 | only the variable-definition set grows, by the symbol; the other sets and the names are unchanged |
| SymbolFrames.SymbolFrame.AddVarUse | src/main/java/zju/cst/aces/api/impl/obfuscator/frame/SymbolFrame.java:84-86 | only the variable-use set grows, by the symbol; the other sets and the names are unchanged |
| SymbolFrames.SymbolFrame.AddMethodDef | src/main/java/zju/cst/aces/api/impl/obfuscator/frame/SymbolFrame.java:93-95 | only the method-definition set grows, by the symbol; the other sets and the names are unchanged |
| SymbolFrames.SymbolFrame.AddMethodUse | src/main/java/zju/cst/aces/api/impl/obfuscator/frame/SymbolFrame.java:102-104 | only the method-use set grows, by the symbol; the other sets and the names are unchanged |
| SymbolFrames.SymbolFrame.Merge | src/main/java/zju/cst/aces/api/impl/obfuscator/frame/SymbolFrame.java:111-133 | merging null changes nothing; otherwise each set becomes its union with the other frame's set, and the names are untouched |
| SymbolFrames.MergeIdempotent | src/main/java/zju/cst/aces/api/impl/obfuscator/frame/SymbolFrame.java:111-133 | merging the same frame twice is merging it once |
| SymbolFrames.RestrictDistributesOverUnion | src/main/java/zju/cst/aces/api/impl/obfuscator/frame/SymbolFrame.java:156-161 | filtering a merged frame gives the merge of the filtered frames |
| SymbolFrames.StringInGroup | src/main/java/zju/cst/aces/api/impl/obfuscator/frame/SymbolFrame.java:253-260 | the static `isInGroup` is false for no ids, and true only when some id occurs in the string |
| SymbolFrames.StringInGroupIff | src/main/java/zju/cst/aces/api/impl/obfuscator/frame/SymbolFrame.java:253-260 | the static `isInGroup(str, ids)` holds exactly when some id occurs in the string |
| SymbolFrames.AsPath | src/main/java/zju/cst/aces/api/impl/obfuscator/frame/SymbolFrame.java:144 | an id in path form has the same length and no `.` |
| SymbolFrames.Targets | src/main/java/zju/cst/aces/api/impl/obfuscator/frame/SymbolFrame.java:144 | the targets are the ids in path form, one for one, in order |
| SymbolFrames.IsClassInGroup | src/main/java/zju/cst/aces/api/impl/obfuscator/frame/SymbolFrame.java:237-244 | `isClassInGroup` is false for no ids, and true only when some id in path form occurs in the name |
| SymbolFrames.IsClassInGroupIff | src/main/java/zju/cst/aces/api/impl/obfuscator/frame/SymbolFrame.java:237-244 | a name is in the group exactly when some id in path form occurs in it, which is the static `isInGroup` over the targets; it is never in the group of an empty list |
| SymbolFrames.SymbolInGroupIffClassInGroup | src/main/java/zju/cst/aces/api/impl/obfuscator/frame/SymbolFrame.java:144-161 | with a type present, the symbol test on the targets agrees with the class-name test on its owner or its type |
| SymbolFrames.SimpleName | src/main/java/zju/cst/aces/api/impl/obfuscator/frame/SymbolFrame.java:221-227 | the piece cut after its last `$` and before its first `;` holds neither, uses only the piece's characters, and is the piece itself when it held neither |
| SymbolFrames.SplitTypeName | src/main/java/zju/cst/aces/api/impl/obfuscator/frame/SymbolFrame.java:215-228 | "" for a null, empty or out-of-group type; an in-group type made only of `/` throws, and only then; any other result holds no `/`, `$` or `;` |
| SymbolFrames.SplitTypeNameOfJoin | src/main/java/zju/cst/aces/api/impl/obfuscator/frame/SymbolFrame.java:219-220 | the last piece of an in-group `prefix/last` is `last` |
| SymbolFrames.SimpleNameOfClass | src/main/java/zju/cst/aces/api/impl/obfuscator/frame/SymbolFrame.java:224-226 | the piece `Simple` or `Simple;` gives `Simple` |
| SymbolFrames.SimpleNameOfNestedClass | src/main/java/zju/cst/aces/api/impl/obfuscator/frame/SymbolFrame.java:221-226 | the piece `Outer$Inner` or `Outer$Inner;` gives `Inner` |
| SymbolFrames.SplitTypeNameOfClass | src/main/java/zju/cst/aces/api/impl/obfuscator/frame/SymbolFrame.java:215-228 | an in-group `prefix/Simple` or `prefix/Simple;` gives `Simple` |
| SymbolFrames.SplitTypeNameOfNestedClass | src/main/java/zju/cst/aces/api/impl/obfuscator/frame/SymbolFrame.java:215-228 | an in-group `prefix/Outer$Inner` or `prefix/Outer$Inner;` gives `Inner` |
| SymbolFrames.ShortenInGroup | src/main/java/zju/cst/aces/api/impl/obfuscator/frame/SymbolFrame.java:147-155 | the kept interface list is no longer than the original and no kept name holds a `/` |
| SymbolFrames.ShortenInGroupMembers | src/main/java/zju/cst/aces/api/impl/obfuscator/frame/SymbolFrame.java:147-155 | the kept names are exactly the shortened forms of the in-group interfaces |
| SymbolFrames.ShortenInGroupAppend | src/main/java/zju/cst/aces/api/impl/obfuscator/frame/SymbolFrame.java:147-155 | shortening keeps the original order: the result for `a + b` is the result for `a` followed by the result for `b` |
| SymbolFrames.ShortenClass | src/main/java/zju/cst/aces/api/impl/obfuscator/frame/SymbolFrame.java:145-146 | a class or super name is kept exactly when it is in the group, and then becomes its suffix after the last `/` |
| SymbolFrames.FilterInterfaces | src/main/java/zju/cst/aces/api/impl/obfuscator/frame/SymbolFrame.java:147-155 | the index loop with `set`, `remove(i)` and `i--` leaves exactly the shortened in-group interfaces, in order |
| SymbolFrames.RemoveIfNotInGroup | src/main/java/zju/cst/aces/api/impl/obfuscator/frame/SymbolFrame.java:156 | `removeIf` returns exactly when no symbol's test throws, and then leaves the in-group symbols; a throw is a NullPointerException, and the set is then only partly filtered |
| SymbolFrames.SymbolFrame.RemoveSymbolsNotInGroup | src/main/java/zju/cst/aces/api/impl/obfuscator/frame/SymbolFrame.java:156-161 | the six `removeIf` calls shrink every set towards its in-group part; all six are filtered exactly when no symbol's test throws |
| SymbolFrames.SymbolFrame.FilterSymbolsByGroupId | src/main/java/zju/cst/aces/api/impl/obfuscator/frame/SymbolFrame.java:140-162 | null or empty ids change nothing; a null class name, super name or interface list throws where it is dereferenced; the names become their shortened in-group form or null; the interfaces become the shortened in-group ones in order; each set becomes its in-group part, or a subset of the old set containing it when a test throws |
| SymbolFrames.NamesOfSymbol | src/main/java/zju/cst/aces/api/impl/obfuscator/frame/SymbolFrame.java:181-183 | a symbol contributes exactly its name, its split owner and its split type |
| SymbolFrames.NamesOfSymbols | src/main/java/zju/cst/aces/api/impl/obfuscator/frame/SymbolFrame.java:181-203 | gathering throws exactly when splitting some owner or type throws; otherwise it holds exactly the names the symbols contribute |
| SymbolFrames.NamesOfSymbolsUnion | src/main/java/zju/cst/aces/api/impl/obfuscator/frame/SymbolFrame.java:181-203 | gathering two sets at once equals gathering them one after the other |
| SymbolFrames.ObNames | src/main/java/zju/cst/aces/api/impl/obfuscator/frame/SymbolFrame.java:170-206 | the obfuscation names never contain ""; they include every non-empty header name; they are exactly the non-empty header and symbol names; they throw exactly when a split throws |
| SymbolFrames.SymbolFrame.ToObNames | src/main/java/zju/cst/aces/api/impl/obfuscator/frame/SymbolFrame.java:170-206 | `toObNames` over the frame's non-null names and its six sets is `ObNames` |
| JavaLang.Split | src/main/java/zju/cst/aces/api/impl/obfuscator/frame/SymbolFrame.java:219-220 | no piece holds the separator; no piece at all exactly for a non-empty all-separator string; the first piece is the text before the first separator; without a trailing separator the last piece is the text after the last one |
| JavaLang.Contains | src/main/java/zju/cst/aces/api/impl/obfuscator/frame/SymbolFrame.java:255 | `String.contains`: the empty string is in every string, and a string longer than the text never is |
| JavaLang.ContainsIff | src/main/java/zju/cst/aces/api/impl/obfuscator/frame/SymbolFrame.java:255 | the left-to-right scan of `contains` answers true exactly when the substring occurs at some index |
| JavaLang.IndexOf | src/main/java/zju/cst/aces/api/impl/obfuscator/frame/SymbolFrame.java:225 | `indexOf` of a character is -1 exactly when it is absent; otherwise it is an index holding the character with none before it |
| JavaLang.IndexOfUnique | src/main/java/zju/cst/aces/api/impl/obfuscator/frame/SymbolFrame.java:225 | the first index holding the character is the only answer `indexOf` can give |
| JavaLang.LastIndexOf | src/main/java/zju/cst/aces/api/impl/obfuscator/frame/SymbolFrame.java:222 | `lastIndexOf` of a character is -1 exactly when it is absent; otherwise it is an index holding the character with none after it |
| JavaLang.LastIndexOfUnique | src/main/java/zju/cst/aces/api/impl/obfuscator/frame/SymbolFrame.java:222 | the last index holding the character is the only answer `lastIndexOf` can give |
| JavaLang.Replace | src/main/java/zju/cst/aces/api/impl/obfuscator/frame/SymbolFrame.java:144 | `replace` of one character keeps the length and changes exactly the positions that held the old character |
| Prompts.Wrap32 | src/main/java/zju/cst/aces/api/impl/PromptConstructorImpl.java:129 | `int` addition lands in the 32-bit range and is exact when the sum fits |
| Prompts.Wrap32Absorb | src/main/java/zju/cst/aces/api/impl/PromptConstructorImpl.java:129 | wrapping an intermediate sum does not change the final wrapped sum |
| Prompts.Accumulate | src/main/java/zju/cst/aces/api/impl/PromptConstructorImpl.java:127-131 | the counter after the loop: unchanged for no messages, and always an `int` when it starts as one |
| Prompts.AccumulateIsWrappedSum | src/main/java/zju/cst/aces/api/impl/PromptConstructorImpl.java:127-131 | adding the counts one by one gives the old count plus their total, modulo 2^32 |
| Prompts.AccumulateWithoutOverflow | src/main/java/zju/cst/aces/api/impl/PromptConstructorImpl.java:127-131 | while the total fits in an `int`, the counter is the old count plus the total, never decreases, and a count over the ceiling stays over it |
| Prompts.AccumulateAppend | src/main/java/zju/cst/aces/api/impl/PromptConstructorImpl.java:127-131 | counting two lists in turn is counting their concatenation |
| Prompts.SumTokensAppend | src/main/java/zju/cst/aces/api/impl/PromptConstructorImpl.java:127-131 | the token total of two message lists is the sum of their totals |
| Prompts.AccumulateTwice | src/main/java/zju/cst/aces/api/impl/PromptConstructorImpl.java:69-80 | two successive generations leave the old count plus the total of both message lists, modulo 2^32, because the counter is never reset |
| Prompts.PromptConstructorImpl.constructor | src/main/java/zju/cst/aces/api/impl/PromptConstructorImpl.java:58-60 | a new constructor has no prompt info, no messages, a zero count and no test names |
| Prompts.PromptConstructorImpl.SetPromptInfo | src/main/java/zju/cst/aces/api/impl/PromptConstructorImpl.java:89-102 | installs the given prompt info and changes nothing else |
| Prompts.PromptConstructorImpl.Generate | src/main/java/zju/cst/aces/api/impl/PromptConstructorImpl.java:69-80 | without prompt info it throws and changes nothing; otherwise it stores the new messages and the counter becomes the old count plus their total, wrapped to an `int` |
| Prompts.PromptConstructorImpl.CountToken | src/main/java/zju/cst/aces/api/impl/PromptConstructorImpl.java:127-131 | a null message list throws and leaves the counter; otherwise each message's count is added in turn with `int` wrap-around |
| Prompts.PromptConstructorImpl.IsExceedMaxTokens | src/main/java/zju/cst/aces/api/impl/PromptConstructorImpl.java:138-144 | true exactly when the count is strictly over the ceiling, so a count equal to it is not over; `AccumulateWithoutOverflow` shows that more messages keep an over-ceiling count over it |
| Prompts.PromptConstructorImpl.SetFullTestName | src/main/java/zju/cst/aces/api/impl/PromptConstructorImpl.java:109-113 | records the full name; the test name becomes the text after the last `.` (all of it when there is none); the full name goes to the prompt info, and a missing prompt info throws after both fields are set |
| Prompts.PromptConstructorImpl.SetTestName | src/main/java/zju/cst/aces/api/impl/PromptConstructorImpl.java:120-122 | only the simple test name changes |
| Prompts.SimpleTestName | src/main/java/zju/cst/aces/api/impl/PromptConstructorImpl.java:111 | the simple test name of `pkg.Name` is `Name` |
| Repairs.RepairImpl.constructor | src/main/java/zju/cst/aces/api/impl/RepairImpl.java:42-45 | a new repairer is not successful and has asked nothing |
| Repairs.RepairImpl.RuleBasedRepair | src/main/java/zju/cst/aces/api/impl/RepairImpl.java:54-59 | the code is renamed, then its package fixed, then its imports fixed, in that order; without prompt info it throws a NullPointerException and only then |
| Repairs.RepairImpl.Answer | src/main/java/zju/cst/aces/api/impl/RepairImpl.java:85-92 | no chat response throws; an empty extraction returns the input unchanged; a non-empty one is the result; any result is the input or non-empty |
| Repairs.RepairImpl.Chat | src/main/java/zju/cst/aces/api/impl/ChatGenerator.java:53-59 | one request is recorded; a null response throws, and only then; otherwise the response is returned |
| Repairs.RepairImpl.RegenerateAndAsk | src/main/java/zju/cst/aces/api/impl/RepairImpl.java:80-92 | the prompt is regenerated and counted; over the ceiling the input comes back with no chat request; otherwise exactly one request, with the answer rule of `Answer` |
| Repairs.RepairImpl.LLMBasedRepair | src/main/java/zju/cst/aces/api/impl/RepairImpl.java:70-93 | the candidate test is stored first; a passing test sets `success` and returns the input with no regeneration and no request; otherwise one regenerate-and-ask round; `success` never goes back to false; any result is the input or non-empty |
| Repairs.RepairImpl.LLMBasedRepairFirstRound | src/main/java/zju/cst/aces/api/impl/RepairImpl.java:103-127 | the same round with the test run as round 0, and `success` never changes |

## Left out

- `projectJob` (the worker pool, futures and shutdown hook) is not modelled. Multithreaded project mode is a single `ProjectJob` event carrying the paths.
- File I/O is replaced by values in `Tasks.Env`:
  - reading the class-name map is the `classMap` option, where `None` is an IOException;
  - `ProjectParser.parse` is the `Parsed` event;
  - `scanSourceDirectory` is `classPaths`;
  - `AbstractRunner.getClassInfo` is the `classInfos` map, where an absent class is an IOException.
- Log text, log levels and the values interpolated into log lines are not modelled. Each log line is an event.
- `File.separator` is taken to be `/`.
- `classInfo.methodSigs.keySet()` order is taken to be the order of the `methodSigs` sequence.
- Repairs.RepairImpl.RegenerateAndAsk: the log lines that dereference `promptInfo.methodInfo` (RepairImpl.java:82, 88, 116 and 122) are not modelled. A prompt info without method info is therefore not a failure in the model.
- Repairs.RepairImpl.LLMBasedRepairFirstRound: the log line on the passing path reads `promptInfo.methodInfo.methodName` (RepairImpl.java:109-110). It is not modelled, so a passing first round with no method info returns normally in the model where the source throws a NullPointerException.
- The runner is modelled only by the sets of classes and methods whose runs throw. Its own effects are not part of this model. RunnerImpl wraps its IOExceptions in unchecked exceptions, so a `runClass` failure escapes and a `runMethod` failure is caught and logged.
- The `interfaces` list is a sequence value. Aliasing of that `List` with other holders is not modelled.
- The frame's six sets are never null in the model. Java initialises them and never assigns null, so `merge`'s null checks of the other frame's sets always pass.
- `toObNames` gathers the eighteen `addAll` lines as one union. `NamesOfSymbolsUnion` shows this equals gathering set by set.
- Symbol names and owners are non-null strings. The type may be null.
- The `groupIds` given to `toObNames` are never null.
- `Symbol`'s constructor is the datatype constructor `Symbols.Symbol`. It stores its four arguments by definition, so it has no separate member.
- Symbols.IsInGroupIff: the iff is stated for symbols with a type. With a null type the source throws at the first id the owner lacks, and `IsInGroupNullDescriptor` states that case.
- `setPromptInfoWithDep` and `setPromptInfoWithoutDep` build their prompt info through `AbstractRunner`, which is not part of this model. `SetPromptInfo` installs a given prompt info in their place.
- Only the candidate test and full test name of `PromptInfo` are modelled. PromptInfo.java is not part of this model.
- The contents of messages, the prompt generator and its IOException are not modelled. `generateMessages` is a total function of the prompt info snapshot.
- `TokenCounter.countToken` is a function to `nat`. A negative count is not modelled.
- `runTest`, the chat model, `extractCodeByResponse`, `changeTestName`, `repairPackage` and `repairImports` are opaque function values. No property of their bodies is claimed.
- Repairs.RepairImpl.LLMBasedRepair: `runTest` is a pure function of the full test name, the prompt info and the round. Side effects of the test run on the prompt info are not modelled.
- The `fullClassName` local in both `LLMBasedRepair` variants (RepairImpl.java:73-74 and 106-107) is computed and never used, so it is left out. Computing it reads `promptInfo.getClassInfo()`; the model never has a null class info there, so the NullPointerException that a missing class info would raise is not modelled.

## Exceptions in startProjectTask

- In the sequential loop of `startProjectTask`, only IOExceptions are caught (Task.java:183-185). An exception from `runClass`, an ambiguous simple name, or a path with no `.` after its last separator therefore ends the whole task. In the model those cases are `Escape` flows, and `ProjectTask` then ends with the exception.
