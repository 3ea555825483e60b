# cold — a verified model of the synthesis engine and the old interpreter

`cold` is a brute-force program-synthesis engine. It is given a catalogue of parameterised code
templates ("patterns") and a job: a composition depth, a visibility window, an enumeration window,
constants and input ⇒ expected-output constraints. From these it:

- assembles candidate program skeletons (`Assembler`);
- runs each skeleton on a small virtual machine (`Instruction`, `Var`, `State`). Bracketed operand
  slots are filled lazily as execution reaches them, and duplicate or degenerate fills are pruned
  (`Interpreter`);
- keeps the programs that return the expected value for every case in turn (`Context`, `Job`).

A second, independent interpreter (`old/cold.py`) runs a register-and-stack toy assembly language
with subs, conditional lines, a value stack and integer lists.

This project models both in Dafny 4.11, one module per concern:

| module | file | what it models |
|---|---|---|
| `Wrappers`, `Text` | wrappers.dfy, text.dfy | `Option`; Python's `strip`, `split`, `join`, `in`, `str(int)`, `int(str)` |
| `Instructions` | instructions.dfy | `Instruction`: parsing, `fhash`, `is_dumb`, `strip_dumb_instructions` |
| `ColdVm` | machine.dfy | `Var` and `State`: evaluation, assignment, `execute`, `check_for_expected`, `find_labels`, `all_code` |
| `ColdSearch` | search.dfy | `input_eval`, `product`, `replacer`, and `state_increment` (the depth-first search) |
| `ColdContext` | context.dfy | `Interpreter.__init__`, `Context.run` and its case chaining (`interpret`) |
| `ColdRounds` | rounds.dfy | `Interpreter.run`, the round-based search, and its agreement with the depth-first search on slot-free programs |
| `ColdBranches` | branches.dfy | what the depth-first search yields, characterised branch by branch |
| `ColdRoundPaths` | roundpaths.dfy | what the round-based search yields, traced back branch by branch |
| `ColdLinear` | linear.dfy | `run_linear` |
| `ColdJob`, `JobLayout`, `ColdJobRoundTrip` | jobs.dfy, jobsave.dfy | `Job.create`, `Job.save`, and the round trip `create(save(job)) == job` |
| `ColdProduct` | product.dfy | `Assembler.product`, the base-P odometer, over an `array` |
| `ColdAssembler` | assembler.dfy | `process_jumps`, `process_locals`, `structure`, `outs`, `finish`, `assemble` |
| `OldProgram` | oldprogram.dfy | `Program.__init__` and `Line.__init__` of the old interpreter |
| `OldContext` | oldcontext.dfy | the old `Context` (a class) and the `execute` of every `Line` subclass |
| `OldInterpreter` | oldinterpreter.dfy | the old `Interpreter` (a class) and its `run` loop |

The model follows each file's own form.

- Pure computations are functions over datatypes.
- Loops are methods with `while` loops, proved equal to the functions.
- Objects whose fields change are classes with `modifies` frames: the two `Context` classes and
  the two `Interpreter` classes.
- The odometer increments an `array` in place.
- The `while True` loop of the cold `Interpreter.run`, which ends with `break`, becomes a
  `while` loop whose guard is the loop's exit test and a `fuel` bound.
- The `while True` loop of the old `Interpreter.run`, which ends by `return` or by an
  exception, stays a `while true` loop with a `fuel` bound; each exit is an early `return`.

Python exceptions become explicit error values (`None`, `Crash`, `Crashed`, …) wherever a
modelled function can raise them. The few exceptions modelled as preconditions instead are
listed under "## Left out". A generator becomes the sequence of values it yields. Unbounded searches and
loops take a `fuel` bound.

Three points where the code is easy to misread; the model follows the code:

- `State.clone` copies the variable dictionaries shallowly (cold/cold.py:194-207), so sibling
  clones share `Var` cells. The model keeps the
  sharing through an explicit `Store` of cells.
- `check_for_expected` applies no visibility window (cold/cold.py:208-216).
- `strip_dumb_instructions` scans from the end and keeps the last line of each canonical form
  (cold/cold.py:424-433).

## Model

| member | source | states |
|---|---|---|
| Text.StripPadded | cold/cold.py:306-309 | stripping whitespace padding gives back an unpadded text |
| Text.SplitJoinChar | cold/cold.py:156-158 | splitting at one character undoes joining with it when no part holds it |
| Text.SplitJoinSealed | cold/cold.py:38 | splitting at a separator undoes joining with it when no part can hide a separator |
| Text.JoinSplit | cold/cold.py:680-687 | `sep.join(s.split(sep)) == s` |
| Text.ParseIntOfString | cold/cold.py:45-77 | `int(str(n)) == n`, also with whitespace around the digits |
| Text.IntToStringInjective | cold/cold.py:97 | different integers print differently |
| Instructions.Parse | cold/cold.py:153-158 | the instruction keeps its line, and its words joined with single spaces give the line back |
| Instructions.Sort2Sorted | cold/cold.py:162-170 | the two-element sort orders its result and is idempotent |
| Instructions.FHashCommutes | cold/cold.py:159-172 | exchanging the operands of add or mul leaves the canonical form unchanged |
| Instructions.FHashCmpCommutes | cold/cold.py:166-172 | exchanging the sides of a comparison leaves the canonical form unchanged |
| Instructions.FHashIdempotent | cold/cold.py:159-172 | canonicalising a canonical form changes nothing |
| Instructions.StripDumbInstructions | cold/cold.py:424-433 | the loop computes exactly the survivors `KeptFrom(xs, 0)` |
| Instructions.StripDumbInstructionsSound | cold/cold.py:424-433 | no survivor is a self-comparison, survivors' canonical forms are pairwise distinct, and every non-degenerate canonical form survives (soundness and completeness of pruning) |
| ColdVm.IndexOf | cold/cold.py:251-254 | the result is the first entry with that name, or there is none |
| ColdVm.FirstWithValue | cold/cold.py:208-216 | the result is the first entry holding the value, or no entry holds it |
| ColdVm.SetVarFrame | cold/cold.py:241-254 | assignment keeps every reference inside the store, only grows the store, and keeps the lines and code pointer |
| ColdVm.ExecuteArith | cold/cold.py:241-268 | add/mul store the sum or product in the destination: an existing variable keeps its cell and first-write step, a new one gets a fresh cell stamped with the code pointer |
| ColdVm.ExecuteCmp | cold/cold.py:269-283 | cmp jumps to its label exactly when the comparison holds and otherwise falls through, leaving the store alone |
| ColdVm.ExecuteJmp | cold/cold.py:284-285 | jmp continues at the line after its label |
| ColdVm.RetMarkerChoice | cold/cold.py:208-216 | at `[ret]`: fails when no output or local holds the expected value; otherwise rewrites the line to `ret <first such name>` and returns exactly the expected value |
| ColdVm.SetVarShape | cold/cold.py:250-254 | assigning an existing name updates its cell in place; a new name gets a fresh cell at the end of the store, stamped with the code pointer, and a new entry in its dictionary |
| ColdVm.SetVarKeepsScoped | cold/cold.py:241-254 | assignment files a new name under the dictionary of its first letter, so outputs stay `o…`, locals `l…`, inputs `i…`, and no name is filed twice |
| ColdVm.AppendScoped | cold/cold.py:252-254 | adding a new, correctly lettered name keeps a dictionary scoped and duplicate-free |
| ColdVm.ExecuteKeepsScoped | cold/cold.py:228-285 | executing a line keeps every dictionary scoped and duplicate-free and every line made of words |
| ColdVm.RetMarkerDicts | cold/cold.py:208-216 | `[ret]` leaves the dictionaries alone and rewrites only the current line, to `ret <name>` |
| ColdVm.ArithKeepsScoped | cold/cold.py:262-265 | add and mul keep the dictionaries scoped and duplicate-free |
| ColdVm.ExecuteRetMarker | cold/cold.py:257-261 | `execute` on a `[ret]` line behaves as RetMarkerChoice says |
| ColdVm.Execute | cold/cold.py:229-287 | a continuing line keeps the lines and references well formed and only grows the store; a return sets the return value |
| ColdVm.LabelsOfKeys | cold/cold.py:217-221 | the label table has an entry exactly for the names that label some line |
| ColdVm.LabelsOfValue | cold/cold.py:217-221 | a label maps to the index just after its last `name:` line |
| ColdVm.AllCodeJoins | cold/cold.py:288-293 | `all_code` is the newline join of the line texts when no line is empty |
| ColdSearch.Visible | cold/cold.py:403-412 | a name is offered exactly when its variable was first set within the shadow window |
| ColdSearch.ConstantTexts | cold/cold.py:400-402 | each constant is offered as its decimal text, in order |
| ColdSearch.AltsDomainMembers | cold/cold.py:397-417 | a slot's domain exists exactly when every `\|`-alternative is understood, and then holds exactly what some alternative offers |
| ColdSearch.OutputSlotDomain | cold/cold.py:403-407 | `[o]` offers exactly the outputs within the shadow window |
| ColdSearch.Product | cold/cold.py:418-423 | the product has `\|left\| * \|right\|` combinations |
| ColdSearch.ProductLen | cold/cold.py:418-423 | every combination grows by one entry |
| ColdSearch.ProductMembers | cold/cold.py:418-423 | a combination is in the product exactly when its front is a left combination and its last entry a right choice |
| ColdSearch.CombosMembers | cold/cold.py:458-463 | the combinations are exactly the ways of picking one option per chosen slot |
| ColdSearch.Parts | cold/cold.py:438-446 | the scan yields one part exactly when the line holds no bracket |
| ColdSearch.Domains | cold/cold.py:451-463 | the collected slots are chosen (`i`/`v`/`o`/`c`) odd parts in range, each with a non-empty domain |
| ColdSearch.DomainsImpossible | cold/cold.py:451-455 | ImpossibleProgramException is raised exactly when some chosen slot has an empty domain and every slot before it passes |
| ColdSearch.ImpossibleWitness | cold/cold.py:451-455 | when the slot scan is impossible, some chosen slot has an empty domain and every slot before it passes |
| ColdSearch.WitnessImpossible | cold/cold.py:451-455 | a chosen slot with an empty domain, after slots that all pass, makes the scan impossible |
| ColdSearch.ReplacerClones | cold/cold.py:435-479 | every line the replacer hands back fills each chosen slot from its domain; none is a self-comparison; no two share a canonical form |
| ColdSearch.KeptCandidates | cold/cold.py:458-479 | every candidate line that survives pruning comes from one combination of options for the chosen slots |
| ColdSearch.ClonesDiffer | cold/cold.py:474-477 | each clone differs from its parent only in the current line and shares its variables |
| ColdSearch.StateIncrement | cold/cold.py:312-347 | the store only grows, at most one program is yielded per counted run, and in stop-at-first mode at most one program |
| ColdSearch.Branch | cold/cold.py:337-345 | the same bounds for the replacer's branch |
| ColdSearch.Stepped | cold/cold.py:318-335 | the same bounds for executing a line that needs no filling |
| ColdSearch.Explore | cold/cold.py:343-345 | the same bounds for the loop over the clones |
| ColdSearch.ClonesKeepScoped | cold/cold.py:194-207 | a clone keeps the parent's dictionaries, so their names keep their scope letters and stay distinct |
| ColdSearch.ReplacerWords | cold/cold.py:458-479 | every line the replacer hands back is made of non-empty space-free words |
| ColdBranches.SearchAccepts | cold/cold.py:312-345 | when the search finishes, a program is yielded when some branch from the state accepts it; with `stop` off, every accepted program is yielded |
| ColdBranches.SteppedAccepts | cold/cold.py:318-335 | the same two directions for executing a line that needs no filling |
| ColdBranches.BranchAccepts | cold/cold.py:337-345 | the same two directions for the replacer's branch |
| ColdBranches.KeepAccepts | cold/cold.py:343-345 | a kept state's search yields what that state's branches accept |
| ColdBranches.ClonesAccept | cold/cold.py:343-345 | the clones' search yields what one clone accepts, starting from the store its earlier siblings leave |
| ColdBranches.OnlyFirst | cold/cold.py:343-345 | a one-state loop accepts exactly what its state accepts |
| ColdBranches.FirstAfter | cold/cold.py:343-345 | the first state of the loop starts from the store as given |
| ColdBranches.ExploreAccepts | cold/cold.py:343-345 | the loop over the clones yields what some state accepts after the states before it, in both directions when `stop` is off |
| ColdBranches.AfterShift | cold/cold.py:343-345 | past the first state, acceptance after the earlier states is acceptance in the rest of the loop |
| ColdBranches.PassedAccepts | cold/cold.py:113-118 | one interpreter's search yields what the branches from its root state accept |
| ColdBranches.ReachesAccepted | cold/cold.py:113-120 | every text the chained interpreters reach is accepted case after case |
| ColdContext.NonBlank | cold/cold.py:306-308 | no line kept is empty |
| ColdContext.ParseAll | cold/cold.py:309 | each kept line is parsed, in order |
| ColdContext.FindLabels | cold/cold.py:217-221 | the loop adds the labels of the lines to the table it was given |
| ColdContext.LabelsGrow | cold/cold.py:309-310 | re-scanning the labels after each appended line gives the labels of the whole code |
| ColdContext.RootScoped | cold/cold.py:300-310 | the root state's names carry their scope letters and are distinct, and its lines are made of words |
| ColdContext.NewInterpreter | cold/cold.py:297-310 | the root state and store are the case's: `p1` set at line 0, the expected value, the parsed non-blank lines and their labels |
| ColdContext.RootAllCode | cold/cold.py:288-310 | a text of stripped non-empty lines comes back unchanged from `all_code`, so a later case runs exactly the lines an earlier case produced |
| ColdContext.NonBlankStripped | cold/cold.py:306-308 | every line the interpreter reads is stripped |
| ColdContext.Interpret | cold/cold.py:113-120 | at most one program per counted run, and at most one from the last case |
| ColdContext.Chain | cold/cold.py:119-120 | at most one program per counted run |
| ColdContext.InterpretReaches | cold/cold.py:113-120 | a source yields exactly the texts it reaches through all remaining cases |
| ColdContext.ChainReaches | cold/cold.py:119-120 | the chained loop yields exactly what some passed program reaches |
| ColdContext.Cases | cold/cold.py:109-111 | one case per constraint, in insertion order |
| ColdContext.RunSources | cold/cold.py:122-125 | at most one solution per counted run; with one case, at most one per source |
| ColdContext.RunSourcesReaches | cold/cold.py:108-125 | the solutions are exactly the texts some source reaches through every case |
| ColdContext.RunSourcesEmpty | cold/cold.py:114 | without cases the first source raises |
| ColdContext.Context.Count | cold/cold.py:319-340 | the counters grow by the increments and the solutions are left alone |
| ColdContext.Context.Absorb | cold/cold.py:122-125 | a source's solutions are appended and its counts added |
| ColdContext.Context.Run | cold/cold.py:108-125 | the method computes `RunSources` and its solutions and counters end as the run says |
| ColdContext.Context.RunWith | cold/cold.py:122-125 | the loop over the sources computes `RunSources` and adds its counts to the counters |
| ColdRounds.Fire | cold/cold.py:372-394 | a fired state yields one state, keeps the store well formed and growing, and yields at most one program per run |
| ColdRounds.FireAll | cold/cold.py:372-394 | one next-round state per clone, references well formed, the store growing |
| ColdRounds.SweepState | cold/cold.py:361-394 | the same for one state of a round |
| ColdRounds.Round | cold/cold.py:357-396 | a round keeps every running state's references in the growing store |
| ColdRounds.Running | cold/cold.py:350-355 | zero exactly when every state has ended |
| ColdRounds.Rounds | cold/cold.py:348-396 | at most one program per counted run, and the store only grows |
| ColdRounds.RoundsStep | cold/cold.py:349-396 | one pass of the `while True` loop: stop when nothing runs, otherwise play a round and go on |
| ColdRounds.FireAllStep | cold/cold.py:372-394 | one pass of the `for temp in temps` loop |
| ColdRounds.RoundStep | cold/cold.py:360-394 | one pass of the `while len(states) > 0` loop |
| ColdRounds.CountRunning | cold/cold.py:350-353 | the loop counts the running states |
| ColdRounds.Interpreter.constructor | cold/cold.py:297-311 | one root state, creating it counts one state, and no other counter changes |
| ColdRounds.Interpreter.FireTemps | cold/cold.py:372-394 | the method computes `FireAll` and updates the store, `last_retval` and the counters accordingly |
| ColdRounds.Interpreter.Advance | cold/cold.py:361-394 | the method computes `SweepState` with the same updates |
| ColdRounds.Interpreter.FireClones | cold/cold.py:372-373 | the clones fire, each counted as a new state |
| ColdRounds.Interpreter.PlayRound | cold/cold.py:357-396 | the method computes `Round`; the states it produces are the next round's |
| ColdRounds.Interpreter.Run | cold/cold.py:348-396 | the method computes `Rounds`; when it halts nothing is running |
| ColdRounds.Interpreter.Turn | cold/cold.py:349-396 | one pass of the `while True` loop: either the run crashes, or the programs and counts of one round are added and the rest of the run is `Rounds` from the new states with one less step |
| ColdRoundPaths.AnyFiresCons | cold/cold.py:372-394 | some state of a list fires exactly when the first does or one of the rest does |
| ColdRoundPaths.AnyPathConcat | cold/cold.py:357-396 | a branch starts from a concatenation of state lists exactly when it starts from one of the parts |
| ColdRoundPaths.AnyPathCons | cold/cold.py:357-396 | a branch starts from a list exactly when it starts from its first state or from the rest |
| ColdRoundPaths.FireYields | cold/cold.py:374-394 | a fired state yields a program exactly when its line returns the expected value, and the program is the returning state's code |
| ColdRoundPaths.FireSound | cold/cold.py:374-394 | what a fired state yields, and every branch from its successor, go back to a branch through that state's line |
| ColdRoundPaths.FireAllCons | cold/cold.py:372-394 | the loop over the clones splits into the first clone and the rest |
| ColdRoundPaths.FireAllSound | cold/cold.py:372-394 | what the loop over the clones yields, and every branch from the states it produces, go back to a clone that fires |
| ColdRoundPaths.SweepStateSound | cold/cold.py:361-394 | what one state's turn yields, and every branch it passes on, go back to a branch from that state |
| ColdRoundPaths.KeptSound | cold/cold.py:361-372 | the same for a state the replacer keeps |
| ColdRoundPaths.ClonesSound | cold/cold.py:361-394 | the same for a state the replacer clones |
| ColdRoundPaths.RoundCons | cold/cold.py:357-396 | a round splits into the first state's turn and the rest |
| ColdRoundPaths.RoundSound | cold/cold.py:357-396 | what a round yields, and every branch it passes on, go back to a branch from one of its states |
| ColdRoundPaths.RoundsSound | cold/cold.py:348-396 | every program a finished run yields is yielded by a branch from one of its starting states |
| ColdRoundPaths.RunSound | cold/cold.py:297-396 | every program one interpreter's run yields is yielded by a branch from its root state |
| ColdRounds.PlainKeep | cold/cold.py:436-446 | the replacer hands back a slot-free line's state unchanged |
| ColdRounds.ExploreSingle | cold/cold.py:343-345 | the search of a single clone is that clone's search |
| ColdRounds.StateIncrementPlain | cold/cold.py:312-335 | on a slot-free program the depth-first search is the plain execute loop |
| ColdRounds.SteppedPlain | cold/cold.py:318-335 | executing a slot-free line steps the depth-first search as it steps the plain loop |
| ColdRounds.BranchPlain | cold/cold.py:337-345 | branching at a slot-free line is the plain loop from there |
| ColdRounds.FireStraight | cold/cold.py:374-394 | firing a slot-free state either ends where the plain loop ends or continues in step with it |
| ColdRounds.RoundsPlain | cold/cold.py:348-396 | on a slot-free program the round-based run finds what the plain loop finds: the same programs, store and counts |
| ColdRounds.SearchesAgree | cold/cold.py:312-396 | the two searches agree on slot-free programs |
| ColdLinear.Kept | cold/cold.py:486-492 | every line kept is significant (non-blank, not a comment) |
| ColdLinear.MainIndex | cold/cold.py:495-504 | the index is the last piece starting with `main 1`, or no piece does |
| ColdLinear.NonEmpty | cold/cold.py:506-510 | the pieces kept are exactly the non-empty ones, in order |
| ColdLinear.CleanLines | cold/cold.py:485-493 | the cleaning loop computes `Clean` |
| ColdLinear.MainCodeOf | cold/cold.py:498-503 | the loop builds the main code from the main piece's stripped non-blank lines |
| ColdLinear.DropEmpty | cold/cold.py:506-510 | the loop computes `NonEmpty` |
| ColdLinear.FindMain | cold/cold.py:495-504 | the loop finds the last main piece and its code |
| ColdLinear.RunMain | cold/cold.py:512-516 | the main code runs once under the round-based interpreter with `p1` and no expected value |
| ColdLinear.Run | cold/cold.py:484-516 | the method computes `RunLinear` |
| ColdLinear.KeptConcat | cold/cold.py:486-492 | cleaning works line by line |
| ColdLinear.CommentsIgnored | cold/cold.py:486-493 | inserting a blank or comment line anywhere in the file changes nothing |
| ColdJob.PutFunction | cold/cold.py:66 | `d[name] = f` keeps the length or appends |
| ColdJob.PutConstraintLookup | cold/cold.py:77 | after `d[k] = v`, `k` maps to `v`, every other key is untouched, and keys stay distinct |
| ColdJob.PutConstraintNew | cold/cold.py:77 | a new key is appended at the end |
| ColdJob.Create | cold/cold.py:36-78 | the section loop computes `Parse` |
| ColdJob.Section | cold/cold.py:39-77 | the `if` chain over section headers computes `ApplySection` |
| ColdJob.IntSection | cold/cold.py:44-51 | each integer section sets its one field, and a bad integer raises |
| ColdJob.AddPatternLines | cold/cold.py:40-43 | the loop computes `AddPatterns` |
| ColdJob.AddConstantLines | cold/cold.py:68-71 | the loop computes `AddConstants` |
| ColdJob.AddConstraintLines | cold/cold.py:73-77 | the loop computes `AddConstraints` |
| ColdJob.AddFunctionBlocks | cold/cold.py:53-66 | the loop computes `AddFunctions` |
| ColdJob.Save | cold/cold.py:79-98 | the method computes `Saved` |
| ColdJob.SavePatterns | cold/cold.py:85-86 | the loop writes one tab-indented line per pattern file |
| ColdJob.SaveConstants | cold/cold.py:93-94 | the loop writes one tab-indented line per constant |
| ColdJob.SaveConstraints | cold/cold.py:96-97 | the loop writes one `k => v` line per constraint |
| ColdJob.SaveFunctions | cold/cold.py:88-91 | the loop writes every function with argument count 1 |
| ColdJobRoundTrip.SavedSplit | cold/cold.py:36-98 | the sections `save` writes are exactly the pieces `create` cuts its text into |
| ColdJobRoundTrip.ReadSettings | cold/cold.py:44-83 | the four settings sections set the four integers |
| ColdJobRoundTrip.ReadLists | cold/cold.py:39-97 | the list sections read back the pattern files, constants and constraints |
| ColdJobRoundTrip.ParsePairText | cold/cold.py:76-97 | a saved constraint line is read back as its pair |
| ColdJobRoundTrip.CreateSave | cold/cold.py:36-98 | `Job.create(job.save()) == job` for a saveable job |
| ColdProduct.Vector | cold/cold.py:690-712 | a tuple has `depth` digits, each below P |
| ColdProduct.ValueBound | cold/cold.py:690-712 | a tuple of `d` digits stands for a number below `P^d` |
| ColdProduct.VectorValue | cold/cold.py:690-712 | reading back the digits of a number below `P^d` gives the number |
| ColdProduct.ValueVector | cold/cold.py:690-712 | writing out the value of a digit tuple gives the tuple back |
| ColdProduct.VectorsCover | cold/cold.py:690-712 | every tuple is the vector of exactly one number below `P^d` |
| ColdProduct.TruncSmaller | cold/cold.py:693-694 | with two or more patterns, `int(s / P)` is strictly closer to zero than a non-zero `s` |
| ColdProduct.SeedDigits | cold/cold.py:691-694 | the digits the seed loop collects are each below P, also for a negative `start` |
| ColdProduct.StartVector | cold/cold.py:691-697 | the seed loop computes the seed digits of `start` padded with zeros to `depth` |
| ColdProduct.SeedLoopHangs | cold/cold.py:691-694 | with one pattern the seed loop never ends for a non-zero `start` |
| ColdProduct.SeedLoopEnds | cold/cold.py:691-694 | with two or more patterns the seed loop ends within `\|start\|` passes with the seed digits |
| ColdProduct.FirstNumber | cold/cold.py:691-712 | the number the odometer starts from is at most `P^depth` |
| ColdProduct.FirstNumberNatural | cold/cold.py:691-712 | for `start >= 0` the odometer starts from `start`, or past the end when `start >= P^depth` |
| ColdProduct.SeedIsVector | cold/cold.py:691-697 | a seed that fits in `depth` digits is the vector of the first number; a longer one puts the first number past the end |
| ColdProduct.DigitsFit | cold/cold.py:691-694 | below `P^d` the seed digits need at most `d` places |
| ColdProduct.StartOverrun | cold/cold.py:691-697 | at or beyond `P^depth` the seed is longer than `depth` |
| ColdProduct.StartOverrunExample | cold/cold.py:690-712 | P = 2, depth 1, start 2 gives the seed `[1, 0]` |
| ColdProduct.NegativeOverrunExample | cold/cold.py:691-697 | P = 2, depth 1, start -2 gives the overlong seed `[1, 0]`, and the corrected odometer starts past the end |
| ColdProduct.NegativeStartExample | cold/cold.py:691-697 | P = 2, depth 1, start -1 gives the seed `[1]`, the last tuple, which the odometer starts from |
| ColdProduct.Inc | cold/cold.py:699-705 | `inc` adds one at digit `i` with carry, touches only digits up to `i`, and overflows exactly at `P^(i+1) - 1` |
| ColdProduct.Turn | cold/cold.py:699-711 | incrementing the last digit turns the vector of `n` into that of `n + 1`, overflowing exactly after the last tuple |
| ColdProduct.IncNoCarry | cold/cold.py:699-705 | the carry-free step adds one |
| ColdProduct.IncCarry | cold/cold.py:701-704 | the carrying step wraps the digit and carries into the one before |
| ColdProduct.Product | cold/cold.py:690-712 | the odometer yields the vectors of `FirstNumber, FirstNumber+1, …, P^depth - 1`, in order, and nothing past the end; for `start >= 0` that is from `start` on (`FirstNumberNatural`) |
| ColdAssembler.FreeFrom | cold/cold.py:552-558 | the name found is the first `tag<k>` not used, or the last one tried |
| ColdAssembler.FreshName | cold/cold.py:552-558 | the loop computes `Fresh` |
| ColdAssembler.ProcessNames | cold/cold.py:546-612 | the character loop computes `Rename` |
| ColdAssembler.ProcessJumps | cold/cold.py:546-579 | `process_jumps` renames the `j` placeholders |
| ColdAssembler.ProcessLocals | cold/cold.py:580-612 | `process_locals` renames the `l` placeholders |
| ColdAssembler.RenameRendered | cold/cold.py:546-579 | scanning a well-formed pattern does what the piece-level reference `Rewrite` says |
| ColdAssembler.RewriteUntagged | cold/cold.py:546-579 | a pattern without a placeholder of the renamed letter is unchanged |
| ColdAssembler.RewriteRecords | cold/cold.py:546-579 | each placeholder of the letter gets a name recorded locally and in the shared dictionary, which loses no entry (a name reused in one pattern gets the same fresh name). |
| ColdAssembler.PrepareTemplate | cold/cold.py:632-633 | the method computes `Prepare` |
| ColdAssembler.SpliceChar | cold/cold.py:620-644 | a `[next]` consumes at most one pattern index |
| ColdAssembler.SpliceFrom | cold/cold.py:620-644 | a pass consumes a prefix of the pattern list |
| ColdAssembler.SpliceClean | cold/cold.py:620-644 | with patterns left, a pass leaves no `[next]` it has already scanned |
| ColdAssembler.SplicePass | cold/cold.py:620-644 | the character loop computes one pass |
| ColdAssembler.Structure | cold/cold.py:615-647 | the method computes `Structured` |
| ColdAssembler.StructuredStep | cold/cold.py:645-647 | a pass leaving patterns and a marker is followed by another pass that uses strictly fewer patterns |
| ColdAssembler.StructureNests | cold/cold.py:615-647 | with patterns `front[next]back`, `structure` nests them: the fronts in list order, one `[next]`, then the backs in reverse |
| ColdAssembler.NumberLines | cold/cold.py:650-677 | one numbered line per line |
| ColdAssembler.NumberRendered | cold/cold.py:650-677 | scanning a well-formed line numbers its `[o]` slots as the piece-level reference says |
| ColdAssembler.OutsKeepsLines | cold/cold.py:650-677 | numbering never adds or removes a line |
| ColdAssembler.NumberLine | cold/cold.py:653-675 | the loop over one line computes the scanner |
| ColdAssembler.Outs | cold/cold.py:650-677 | the method computes `Numbered` |
| ColdAssembler.WeaveJoin | cold/cold.py:682-687 | inserting `[ret]` between the parts and concatenating them is joining with `[ret]` |
| ColdAssembler.Finish | cold/cold.py:680-687 | `finish` replaces every `[next]` by `[ret]` |
| ColdAssembler.FinishReplacesMarkers | cold/cold.py:680-687 | gluing `finish`'s pieces back with `[next]` gives its input |
| ColdAssembler.Templates | cold/cold.py:719-722 | one template per pattern code |
| ColdAssembler.Build | cold/cold.py:729-733 | the method computes `Skeleton` |
| ColdAssembler.LoadPatterns | cold/cold.py:719-722 | the loop computes `Templates` |
| ColdAssembler.TakeWindow | cold/cold.py:727-736 | the window holds the skeletons of the first `max(1, program_set_size)` tuples (fewer when fewer remain), failing exactly when one of them fails |
| ColdAssembler.Assemble | cold/cold.py:715-736 | the skeletons are those of enumeration numbers `FirstNumber(size*(set-1))` onwards, in order, for the window length; the window uses the corrected `Product`, so a start at or past `P^depth` gives an empty window |
| ColdAssembler.WindowNumbers | cold/cold.py:724-736 | position `k` of the window is enumeration number `start + k` |
| ColdAssembler.WindowCovers | cold/cold.py:724 | consecutive windows cover every enumeration number exactly once |
| OldProgram.Separate | old/cold.py:75-91 | neither half holds a parenthesis |
| OldProgram.SeparateCondition | old/cold.py:75-91 | `pre(cond)post` separates into the stripped `pre + post` and the stripped `cond` |
| OldProgram.SeparateUnconditional | old/cold.py:75-91 | a line without parentheses has no condition |
| OldProgram.Scan | old/cold.py:76-91 | the character loop computes `Separate` |
| OldProgram.ClassifyUpTo | old/cold.py:38-65 | the answer is a keyword that starts the command text, or none does |
| OldProgram.KeywordStem | old/cold.py:38-65 | every keyword is told apart by its first three letters |
| OldProgram.ClassifyKeyword | old/cold.py:38-65 | a command starting with a keyword is that keyword's line, whatever the order of the tests |
| OldProgram.ParseProgram | old/cold.py:8-70 | the loop of `Program.__init__` computes `ProgramOf` |
| OldProgram.ParsedConcat | old/cold.py:15-70 | parsing runs line by line |
| OldProgram.IgnoredLinesSkipped | old/cold.py:18-22 | blank and `#` lines make no difference to the parse |
| OldProgram.FillSub | old/cold.py:24-70 | command lines append their parsed lines to the open sub, in order |
| OldProgram.HeaderOpensSub | old/cold.py:24-27 | a header followed by command lines defines the sub as those commands |
| OldProgram.ParseLineFails | old/cold.py:29-68 | a line fails exactly before any header or when no keyword matches |
| OldProgram.LineOutsideSub | old/cold.py:29-30 | a command before the first header makes the program fail |
| OldProgram.FailureAborts | old/cold.py:67-68 | a failing line makes every program containing it fail |
| OldContext.Initial | old/cold.py:190-192 | the initial data is well formed |
| OldContext.TrailingSigns | old/cold.py:194-202 | each trailing `+` adds one and each trailing `-` takes one away |
| OldContext.EvaluateLiteral | old/cold.py:193-213 | a literal with trailing signs evaluates to the number plus the net signs |
| OldContext.EvaluateVariable | old/cold.py:193-213 | `$name` with trailing signs evaluates to the variable's value plus the net signs |
| OldContext.EvaluateList | old/cold.py:206-211 | a variable holding a list cannot be evaluated |
| OldContext.Operator | old/cold.py:215-224 | no operator is found exactly when none occurs; otherwise the one found occurs |
| OldContext.CompareWithoutOperator | old/cold.py:223-224 | without an operator `compare` raises |
| OldContext.OperatorAlone | old/cold.py:215-226 | an operator put between two numbers is the one found, and splitting there gives the two sides back |
| OldContext.CompareLiterals | old/cold.py:214-238 | `compare(str(a) + op + str(b))` is the comparison of `a` and `b` |
| OldContext.Values | old/cold.py:127-129 | one value per expression |
| OldContext.Zeros | old/cold.py:165-167 | `n` zeros, none when `n` is negative |
| OldContext.Index | old/cold.py:179-187 | a list position is always inside the list; negative indices count from the end |
| OldContext.StashRestore | old/cold.py:137-149 | `stash` then `restore` gives back the registers and the stack |
| OldContext.PopIsAssigned | old/cold.py:131-135 | popping pushed values assigns them, the last name first, and leaves the stack below them |
| OldContext.AssignedDomain | old/cold.py:134-135 | afterwards a variable exists exactly when it did before or is a popped name |
| OldContext.AssignedKeeps | old/cold.py:134-135 | a variable not popped into keeps its value |
| OldContext.AssignedFirst | old/cold.py:134-135 | a name's first occurrence receives its value (the earliest assignment wins) |
| OldContext.PushThenPop | old/cold.py:125-135 | `push e1..en` then `pop x1..xn` restores the stack, and each first name holds its expression's value |
| OldContext.ValuesAll | old/cold.py:127-129 | expressions that all evaluate give their values in order |
| OldContext.ValuesNext | old/cold.py:127-129 | one more expression with a value appends that value |
| OldContext.ValuesPrefixFails | old/cold.py:127-129 | a failure at one expression fails the whole `push` |
| OldContext.AndStores | old/cold.py:151-158 | `and a, b > d` stores 1 exactly when both values are nonzero |
| OldContext.BufferCreates | old/cold.py:160-167 | `buffer b n` makes `b` refer to a new list of `n` zeros |
| OldContext.WriteAt | old/cold.py:181-187 | `write b i v` sets exactly the indexed element of the list `b` refers to |
| OldContext.ReadAt | old/cold.py:173-179 | `read b i d` copies the indexed element into `d` |
| OldContext.WriteThenRead | old/cold.py:173-187 | a write through one name is seen by a read through another name of the same list |
| OldContext.WriteChangesOneElement | old/cold.py:181-187 | `write` changes one element of one list and nothing else |
| OldContext.KillForgets | old/cold.py:169-171 | `kill x` forgets `x` and only `x`; an absent name changes nothing |
| OldContext.SetBinds | old/cold.py:115-123 | `set x = e` binds `x` to the value of `e` |
| OldContext.ExecKeepsWf | old/cold.py:93-187 | no command leaves a dangling list reference |
| OldContext.Context.constructor | old/cold.py:190-192 | the four registers at zero and an empty stack |
| OldContext.Context.Evaluate | old/cold.py:193-213 | the loop computes `ValueOf` |
| OldContext.Context.Compare | old/cold.py:214-238 | the method computes `Compared` |
| OldContext.Context.Stash | old/cold.py:137-142 | succeeds exactly when `StashOf` does, with that new state |
| OldContext.Context.Restore | old/cold.py:144-149 | succeeds exactly when `RestoreOf` does, with that new state |
| OldContext.Context.Push | old/cold.py:125-129 | succeeds exactly when `PushOf` does, with that new state |
| OldContext.Context.Pop | old/cold.py:131-135 | succeeds exactly when `PopOf` does, with that new state |
| OldContext.Context.And | old/cold.py:151-158 | succeeds exactly when `AndOf` does, with that new state |
| OldContext.Context.Buffer | old/cold.py:160-167 | succeeds exactly when `BufferOf` does, with that new state |
| OldContext.Context.Kill | old/cold.py:169-171 | the new state is `KillOf` |
| OldContext.Context.Read | old/cold.py:173-179 | succeeds exactly when `ReadOf` does, with that new state |
| OldContext.Context.Write | old/cold.py:181-187 | succeeds exactly when `WriteOf` does, with that new state |
| OldContext.Context.Set | old/cold.py:115-123 | succeeds exactly when `SetOf` does, with that new state |
| OldContext.Context.Execute | old/cold.py:93-187 | dispatches to the command, and keeps the data well formed |
| OldInterpreter.ExecEffects | old/cold.py:103-113 | only `jump` calls (the sub named after `jump `), only `return` returns and only `superbu` stops |
| OldInterpreter.StepKeepsWf | old/cold.py:251-298 | a pass keeps every list reference inside the store |
| OldInterpreter.StartIsSound | old/cold.py:255-258 | the call stack starts sound |
| OldInterpreter.StepKeepsSound | old/cold.py:260-298 | each pass keeps the call stack sound and changes its depth by at most one |
| OldInterpreter.FalseConditionSkips | old/cold.py:272-282 | a line whose condition is false is skipped: only the line index moves |
| OldInterpreter.LoopStep | old/cold.py:260-298 | a pass hands the rest of the loop to the machine it leaves |
| OldInterpreter.FuelMonotone | old/cold.py:260-298 | a run that ends within a bound ends the same way with any larger one |
| OldInterpreter.LoopSplits | old/cold.py:260-298 | the loop composes: the first `a` passes, then the rest |
| OldInterpreter.EndOfSubReturns | old/cold.py:266-268 | running off the end of a sub returns to the caller |
| OldInterpreter.JumpThenReturn | old/cold.py:286-298 | a jump to a sub that returns at once continues after the jump |
| OldInterpreter.SuperbuExits | old/cold.py:103-105 | an unconditional `superbu` stops the program with the data as it is |
| OldInterpreter.EmptyBuFinishes | old/cold.py:252-262 | a program with an empty `bu` sub finishes at once |
| OldInterpreter.Interpreter.constructor | old/cold.py:243-246 | the program, the context and an empty call stack |
| OldInterpreter.Interpreter.Pass | old/cold.py:261-298 | one loop pass on the object computes `Step` |
| OldInterpreter.Interpreter.Decide | old/cold.py:272-274 | a line runs when it has no condition, otherwise as `compare` decides |
| OldInterpreter.Interpreter.Perform | old/cold.py:276-298 | `execute`, the line index moving on, and the call-stack effect, as `Effected` says |
| OldInterpreter.Interpreter.Advance | old/cold.py:260-298 | one pass either ends the run with the outcome of the whole loop or hands the rest of the loop to the state it leaves |
| OldInterpreter.Interpreter.RunLoop | old/cold.py:260-298 | the `while True` loop computes `RunFrom` on the stack and data it starts with |
| OldInterpreter.Interpreter.Run | old/cold.py:251-298 | without `bu` it raises; otherwise the run is `RunFrom` from `bu`'s first line, and on a fresh interpreter it is `Running` |

## Left out

- Input and output are not modelled: catalogue and job files, `sys.argv`, the module entry
  old/cold.py:301-302, `print_stats`, the `print` calls before a re-raise, and the timing done
  with `datetime` in `assemble`. `assemble` takes the pattern codes as a parameter.
- `PrintLine` output is not modelled: the line is a no-op that continues at old/cold.py:96-101.
  `superbu`'s `exit()` becomes the `Exited` outcome.
- Generators are collected into the sequence of values they yield, so laziness is not modelled.
- ColdSearch.StateIncrement, ColdRounds.Rounds, ColdContext.Interpret, ColdContext.RunSources,
  ColdLinear.RunLinear and OldInterpreter.RunFrom take a `fuel` bound. An unterminated search or
  loop, or a depth past Python's recursion limit, shows as `OutOfFuel`; the recursion limit itself
  is not modelled.
- Solutions yielded before an exception escapes are dropped: a crash yields only the crash value.
- Partial mutation before an exception is not modelled. When an old `Context` method fails, its
  contract says nothing about the data afterwards; Python may already have changed part of it, for
  example pushed part of a `push` list. The run ends in `Crashed` either way.
- Shared mutable defaults are not modelled, because every call in the modelled core passes fresh
  values: `Interpreter(program, context=Context())` at old/cold.py:243 and `jumps={}, _locals={}`
  at cold/cold.py:615.
- Dead code is not modelled: `State.all_vars` (cold/cold.py:222-226, never called) and
  `Pattern.replacers` (cold/cold.py:522-543, never read). `Pattern` is its stripped template plus
  a newline.
- Python's `int()` is modelled as optional whitespace, an optional sign and ASCII digits.
  Underscores and non-ASCII digits are not accepted.
- The cold `State` is a datatype plus an explicit store of `Var` cells rather than a class. The
  search treats states as values it clones. The store models the aliasing between clones; in-place
  update of one state object is what this leaves out.
- OldContext.Context stores lists as a sequence of lists plus references. The "reference past the
  store" branches of `read` and `write` cannot happen under `Valid()` and are modelled as failures.
- ColdJobRoundTrip.CreateSave: proved only for jobs that define no functions and whose pattern
  file names are non-empty and hold no whitespace and no `!!`. `save` writes every function with
  argument count 1, so a function read with another count does not come back as it was.
- ColdProduct.Product: requires `p >= 1 && depth >= 1`. The source's behaviour outside that is
  not modelled. With an empty catalogue (P = 0), a non-zero `start` raises ZeroDivisionError, and
  `start` 0 yields one all-zero tuple before the overflow ends the generator. With depth 0 the
  unpadded seed is yielded, and `inc` then starts at index -1, the last digit. For `start` 0 that
  yields `[]` and raises IndexError; for P = 2 and `start` 2 it yields `[1, 0]` and `[1, 1]` and
  then raises IndexError.
- ColdProduct.Product: the generator yields one list and changes it in place with `inc`
  (cold/cold.py:706-711); the model yields a fresh vector each time. The only caller copies each
  tuple into `pattern_list` before the next `inc` (cold/cold.py:727-729), so the sharing is not
  observable there.
- ColdProduct.TruncDiv: `int(start / patterns)` is float division in Python. The model takes the
  exact quotient rounded toward zero, which agrees with Python only while `|start|` is below 2^53.
- ColdAssembler.Assemble: inherits the requires of `Product`, so at least one pattern and `depth >= 1`.
  Every window start is covered, negative ones included.
- ColdRounds.Rounds: what the round-based run yields is traced back to branches from its starting
  states (ColdRoundPaths.RoundsSound), but the converse is not stated. All states of a round take
  turns on one store, and a branch here may run each line on any store its variables fit, so an
  accepted branch need not be one the run takes with the store it really has. The depth-first
  search has both directions (ColdBranches.SearchAccepts).
- ColdAssembler: the crash on an empty placeholder `[]` inside a pattern is a precondition
  of the piece-level lemmas, not an error value; the character loops themselves model it as
  `None`.

## Findings

| source | as written | input that shows it | evidently intended | confidence | as-written member | corrected member |
|---|---|---|---|---|---|---|
| cold/cold.py:690-712 | `product` seeds the odometer with the digits of `start` without checking `start < P^depth`, and yields that seed even when it is longer than `depth` | P = 2, depth = 1, start = 2: the seed is `[1, 0]`, which is yielded as a pattern tuple of length 2; a negative start overruns too: `program_set` 0, size 2, P = 2, depth 1 gives start -2 and the seed `[1, 0]` | an enumeration window beyond `P^depth` yields nothing | not executed | ColdProduct.StartOverrun, ColdProduct.StartOverrunExample, ColdProduct.NegativeOverrunExample | ColdProduct.Product |
| cold/cold.py:691-694 | with one pattern, `start % 1` is 0 and `int(start / 1)` is `start` again, so the seed loop never ends for a non-zero `start` | one pattern, depth 1, `program_set_size` 1, `program_set` 2: the start is 1 and the loop never ends | an enumeration window past the single tuple yields nothing | not executed | ColdProduct.SeedLoopHangs | ColdProduct.Product |
