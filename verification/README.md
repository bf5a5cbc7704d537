# Verified model of the agent's dispatcher, timers, text engines and build script

The repository is a small agent program in C++: an event dispatcher that preempts its handlers, a timer wheel,
configuration files, a command line, an output registry, and a Python script that generates Makefile dependencies.
This project models that code in Dafny and proves what it keeps, over whole runs where there are runs, and for
all inputs where there are inputs.

## The parts

**Dispatcher** (`Handshake`, `HandlerSync`, `Dispatch*`). One event dispatch thread (EDT) runs one handler thread at
a time, suspends it through a mutex and a condition variable when an event of higher priority arrives, keeps
interrupted handlers on a stack and frees their contexts. `Handshake` takes `src/event/handler.cpp` one statement at a
time, with spurious wake-ups, and proves that each critical section can be taken as one step. `Dispatch` is the
interleaving of all threads in such steps, sequentially consistent; a run is any sequence of enabled steps.
`DispatchObject` is the same as objects changed in place, one method for each atomic step of the source's functions,
each keeping the dispatcher's invariant; its `Run` performs any legal run and ends in the state the run leads to, so
that the theorems apply to the object.
What the machine leaves open is a parameter of the step: which event is on top of the queue (the queue compares
addresses, `src/event/dispatch.cpp:41`, so "highest priority first" does not hold and is not claimed), whether a topic
has a subscriber, whether a thread could be created, and who moves next. A run has at most one call of `quit()` by a
handler and one by a thread that is no handler; the two may overlap in any way. `DispatchDeadlock` and
`DispatchShutdown` say which calls go wrong, `DispatchProgress` which waits can end.

**Timers** (`Timers`, `TimerRuns`). The map of timers, and the loop that fires and erases while it iterates. The clock
is a parameter. `Timers` has the objects and proves them equal to functions on values; `TimerRuns` has runs of those,
with bounds from above (no firing too early or too often) and from below (what is due fires).

**Text engines.** `VariableExpander` (`$NAME` substitution in place), `ShellTokenizer` and `ParamList` (command lines),
`PluginVersion` and `Numerals` (version strings and the hand-written `stol`), `ConfigFile`, `ConfigWriter` and
`ConfigRoundTrip` (configuration files), over `Strings`. What the functions on values mean is said again without them:
`ExpansionLaws` by the form of the front of a text, `ShellPieces` by quoted and bare stretches, `ConfigLines` by the
form of a line.

**Include scanner** (`IncludeScanner`, `IncludeSearch`, `IncludeReachability`, `IncludeReports`). The depth first search of
`scripts/gendeps.py` with its shared lists, over a finite set of existing files; paths are compared as strings.

**Output devices** (`OutputDevices`, `OutputRuns`). The registry of devices, one of them active, and switching away.
`OrderedStrings` is the order in which `std::map` goes through string keys, `Alphabets` the sets of characters.

## Results that are not what one might expect

- A handler of topic u that calls `quit()` can end in a wait cycle with the EDT if and only if some topic outranks u or
  a thread that is no handler may call `quit()` too; a wait cycle is for ever. In the shipped table no topic outranks
  TEXT_INPUT, whose handler runs KILL, so KILL alone is safe; beside a shutdown from outside it deadlocks exactly when
  the EDT has begun to dispose of its handler before it calls.
- A handler can find `current_handler` NULL or freed in `quit()` if and only if some topic outranks its own. A call
  from outside finds it so whenever there is no current handler, as when a later module fails to start
  (`src/msa.cpp:194`), between the disposal of a finished handler and the clearing of the pointer, and once cleanup is
  past the current handler. Of two overlapping calls only one can come back: it deletes what the other still uses.
- The EDT never waits for a handler that it keeps suspended, and a cleanup that has begun can be completed if and only if
  the EDT is not waiting for a caller of `quit()`. But the wait of an interruption can end if and only if the handler has
  neither returned nor called `quit()`; a handler may return while the event that is to interrupt it is dispatched, and
  then the EDT polls for ever (`src/event/dispatch.cpp:307`). For a handler of topic u that is reachable if and only if
  some topic outranks u.
- Expansion ends if and only if no unescaped `$` stands directly before a digit.
- A timer is overwritten by an add if and only if the size of the list is already an id. While no timer is erased that
  takes 65536 adds, and then it happens; but a one-shot that fires is erased, and the next add can overwrite another.
- A version comes back from printing and parsing if and only if its build is at least 10, or is 0 with a debug of 0 or
  at least 10.
- A config comes back from saving and loading if and only if it is what `Storable` says; values with a comment sign or
  a newline, blanks at the ends, or quotes at both ends are lost or changed.
- The timer command's join of its arguments tokenizes to the same arguments if and only if each is non-empty and free
  of white space and quotes.
- `unregister_handler` can fail and still have moved the active device; and when it succeeds, every device that is
  not active keeps the handler that is gone.
- An included file counts as a dependency if the source directory has it, even where another directory wins.

Where the code and its comments disagree the model follows the code: a backslash outside quotes stands for itself in
`shell_tokenize` (`src/cmd/cmd.cpp:404`), the empty name is a valid identifier for the expander and for a section, an
index in a config key may leave earlier values empty, and `remove_escapes` also takes the escapes out of values.

## Model

| member | source | states |
|---|---|---|
| Handshake.NoLostWakeup | src/event/handler.cpp:33-81 | In every reachable state with the mutex free, a handler asleep in cond_wait is one whose suspend_flag is set |
| Handshake.SuspendedStaysSuspended | src/event/handler.cpp:48-81 | After handler_suspended has answered true with the flag set, no continuation without a resume takes the handler out of the wait loop, however often it wakes spuriously |
| Handshake.ResumedHandlerCanLeave | src/event/handler.cpp:40-81 | With the flag clear and the mutex free, a handler inside its interrupt point gets out by its own steps alone |
| Handshake.StepRefines | src/event/handler.cpp:33-81 | Every single statement is one step of the coarse handshake or nothing it can see |
| Handshake.RunRefines | src/event/handler.cpp:33-81 | Every run of statements is a run of atomic suspends, resumes and handler moves, and handler_suspended answers what that run says |
| HandlerSync.MoveKeepsSync | src/event/handler.cpp:71-81 | No step of the handler leads out of a wait loop it is held in, and none changes the flag |
| DispatchInvariant.ReachableIsGood | src/event/dispatch.cpp:205-407 | The invariant of the dispatcher holds after every run: every context is current, on the stack, in the EDT's hands, left to its own thread, or freed, and its thread stands where that requires |
| DispatchTheorems.MutualExclusion | src/event/dispatch.cpp:244-316 | In every reachable state before cleanup at most one handler thread executes; in cleanup one more, inside quit |
| DispatchTheorems.InterruptedIsParked | src/event/dispatch.cpp:302-316 | Every context on the stack belongs to a live handler held inside its interrupt point |
| DispatchTheorems.ParkedUntilPopped | src/event/dispatch.cpp:259-268 | Only the EDT takes a context off the stack, only at the top, to resume it or to clean it up |
| DispatchTheorems.OwnContextBinding | src/event/dispatch.cpp:318-407 | Although event_start reads the shared current_handler late, it always reads the context its thread was created for, not yet freed |
| DispatchTheorems.MisuseIff | src/event/dispatch.cpp:100-127 | Which step uses something NULL, freed or deleted, exactly: quit from outside without a current handler or with a freed one, quit from a resumed handler that is not current, and any use of the dispatcher's context after a call of quit has come back |
| DispatchTheorems.CurrentFreedIff | src/event/dispatch.cpp:218-271 | current_handler points to a freed context exactly between disposal and clearing, and once cleanup is past it, unless it is left to its own thread |
| DispatchTheorems.UseAfterFreeIff | src/event/dispatch.cpp:116-407 | A step dereferences a freed context if and only if it is the test in quit in one of those states; no other step of any thread does, and none frees twice |
| DispatchTheorems.OnlyOneComesBack | src/event/dispatch.cpp:120-127 | Of a call of quit by a handler and one from outside at most one comes back without using the deleted context |
| DispatchTheorems.OneKeeper | src/event/dispatch.cpp:218-407 | Every context not freed has exactly one keeper: the EDT, the stack, or its own thread through reap_in_handler |
| DispatchTheorems.EventConservation | src/event/dispatch.cpp:218-414 | At all times a pushed event is in exactly one of the queue, the EDT's hands, one unfreed context and the disposed events, and never twice |
| DispatchTheorems.NothingLeaks | src/event/dispatch.cpp:218-242 | When the EDT and the caller of quit have ended, every context is freed and every event disposed of once, or it came after the queue was drained |
| DispatchTheorems.StrictPriorityStack | src/event/dispatch.cpp:244-316 | Priorities strictly increase from the bottom of the stack to the current handler, whatever the queue hands out; at the loop head no current handler means an empty stack |
| DispatchTheorems.NestingBound | src/event/event.cpp:8-10 | At most 256 handlers are nested for any table of uint8_t priorities, and at most two with the shipped one |
| DispatchTheorems.NoWaitCycle | src/event/dispatch.cpp:100-127 | A handler that no topic outranks, joining the EDT, is not one the EDT waits for, in the interrupt loop or in the dispose loop, unless it called when the EDT was disposing of it already |
| DispatchTheorems.QuitFindsItself | src/event/dispatch.cpp:116-119 | Such a handler finds itself as current_handler when it calls quit, so it is marked as the origin and nothing NULL or freed is read |
| DispatchDeadlock.WaitCycleIsForEver | src/event/dispatch.cpp:120-122 | A wait cycle lasts in every continuation, and the EDT never ends |
| DispatchDeadlock.QuitDeadlocksIff | src/event/dispatch.cpp:100-242 | A call of quit by a handler no topic outranks can end in a wait cycle if and only if the EDT is disposing of this handler when the call is made, and then neither comes out of it in any continuation |
| DispatchDeadlock.LateNeedsOutside | src/event/dispatch.cpp:218-228 | That takes a call of quit from a thread that is no handler |
| DispatchProgress.NeverWaitsForSuspended | src/event/dispatch.cpp:360-375 | In every reachable state the suspend_flag of a handler is clear when the EDT waits for its end: whatever was interrupted has been resumed |
| DispatchProgress.ShutdownCompletesIff | src/event/dispatch.cpp:218-242 | After any run into cleanup a continuation exists in which the EDT ends, if and only if it is not waiting for a caller of quit; interrupted handlers are resumed and run to their end |
| DispatchProgress.EndsDrained | src/event/dispatch.cpp:229-240 | The step in which the EDT ends finds the queue and the stack empty |
| DispatchProgress.InterruptionEndsIff | src/event/dispatch.cpp:302-316 | The wait for a handler to suspend can be left in some continuation if and only if the handler has neither returned nor called quit |
| DispatchShutdown.WaitCycleIff | src/event/dispatch.cpp:100-127 | For any priority table a wait cycle of a handler of topic u with the EDT is reachable if and only if some topic outranks u or a call from outside is allowed beside it |
| DispatchShutdown.QuitCrashIff | src/event/dispatch.cpp:116-119 | For any table a handler of topic u can find current_handler NULL or freed in quit if and only if some topic outranks u |
| DispatchShutdown.HangIff | src/event/dispatch.cpp:273-316 | For any table the EDT can come to wait for ever in the interruption of a handler of topic u if and only if some topic outranks u; from then on every continuation waits for the same handler |
| DispatchShutdown.ShippedShutdownIsSafe | src/event/topics.hpp:7-10 | With the shipped table a TEXT_INPUT handler finds itself in quit in every reachable state, and deadlocks only if it was late for a shutdown from outside |
| DispatchShutdown.ShippedShutdownCanDeadlock | src/event/dispatch.cpp:226-227 | It can: a run with the shipped table after which the handler and the EDT wait for each other in every continuation |
| DispatchShutdown.OutsideReadsNull | src/event/dispatch.cpp:116 | quit from outside reads a NULL current_handler in the initial state |
| DispatchShutdown.OutsideReadsFreed | src/event/dispatch.cpp:116 | and a freed one after a finished handler's disposal |
| DispatchObject.EventDispatchContext.Run | src/event/dispatch.cpp:205-407 | Performing the steps of any legal run in place leaves the objects in the state the run leads to, with the dispatcher's invariant |
| DispatchObject.EventDispatchContext.PollEventQueue | src/event/dispatch.cpp:273-300 | The top is taken off unless the current event's priority is at least as high; what is dispatched outranks the current handler |
| DispatchObject.EventDispatchContext.DispatchEvent | src/event/dispatch.cpp:343-358 | A current handler is asked to suspend before the event goes on |
| DispatchObject.EventDispatchContext.InterruptHandler | src/event/dispatch.cpp:302-316 | The current handler goes on the stack only once it is held in its wait loop |
| DispatchObject.EventDispatchContext.SpawnHandler | src/event/dispatch.cpp:318-358 | A subscribed event gets a new running context that is current; any other is deleted |
| DispatchObject.EventDispatchContext.CreateThread | src/event/dispatch.cpp:331-339 | The thread starts, or the context stops running |
| DispatchObject.EventDispatchContext.TestFinished | src/event/dispatch.cpp:253-260 | A current handler that has stopped running is disposed of without waiting |
| DispatchObject.EventDispatchContext.PopInterrupted | src/event/dispatch.cpp:260-268 | With no current handler the top of the stack, which was held in its wait loop, is resumed |
| DispatchObject.EventDispatchContext.CleanUpCurrent | src/event/dispatch.cpp:218-228 | Cleanup waits for the current handler unless it is the one that called quit |
| DispatchObject.EventDispatchContext.CleanUpStack | src/event/dispatch.cpp:229-234 | Interrupted handlers are taken from the top and waited for |
| DispatchObject.EventDispatchContext.CleanUpQueue | src/event/dispatch.cpp:235-240 | Queued events are deleted until none is left |
| DispatchObject.EventDispatchContext.DisposeHandlerContext | src/event/dispatch.cpp:360-389 | One memory access of the disposal: test, resume, wait or leave to the handler, and free what is not freed yet |
| DispatchObject.EventDispatchContext.StartHandler | src/event/dispatch.cpp:391-395 | A new thread reads its own, live context from current_handler |
| DispatchObject.EventDispatchContext.QuitFromHandler | src/event/dispatch.cpp:111-120 | The caller is current and marked as the origin, unless it has been resumed without being current, when the test reads NULL or freed memory |
| DispatchObject.EventDispatchContext.QuitFromOutside | src/event/dispatch.cpp:116-119 | The test reads current_handler whatever it is |
| DispatchObject.EventDispatchContext.JoinHandler | src/event/dispatch.cpp:122-124 | Back from the join the context is deleted, for the second time if the other caller was first |
| DispatchObject.EventDispatchContext.TestReap | src/event/dispatch.cpp:395-405 | A handler that has returned frees its own context exactly if it was left to it |
| DispatchObject.EventDispatchContext.ReapHandler | src/event/dispatch.cpp:396-401 | The context freed was not freed before |
| DispatchObject.SyncObject.InterruptPoint | src/event/handler.cpp:71-81 | One step through HANDLER_INTERRUPT_POINT |
| Timers.TimerContext.AddTimer | src/event/timer.cpp:142-173 | The timer goes under the size of the list as int16_t, over whatever is there |
| Timers.TimerContext.RemoveTimer | src/event/timer.cpp:175-203 | A missing or a system timer is refused and nothing changes; any other is erased |
| Timers.TimerContext.CheckTimers | src/event/timer.cpp:249-260 | The timers get a tick only when the resolution has passed since the last |
| Timers.TimerContext.FireTimers | src/event/timer.cpp:262-284 | Erasing while iterating, the loop generates the events of the ready timers in id order and leaves the old map without ready one-shots and with ready recurring timers restamped |
| Timers.TimerContext.ClearTimers | src/event/timer.cpp:238-247 | Erases all timers without firing one |
| TimerRuns.ReadyInOrder | src/event/timer.cpp:262-284 | The ids a tick fires are strictly increasing and exactly those of ready timers |
| TimerRuns.CheckTicks | src/event/timer.cpp:249-284 | Once the resolution has passed, or at the first check, the log grows by exactly the firings of the timers that are due, which are restamped or gone, and every other timer is as it was; before that nothing changes |
| TimerRuns.KeepsFiring | src/event/timer.cpp:249-284 | After any run, checks no closer together than the period and the resolution fire a recurring timer every time, at those times and at no others |
| TimerRuns.RemovedIsSilent | src/event/timer.cpp:175-203 | A timer that was removed never fires again in any continuation, and no other timer goes with it |
| TimerRuns.FiringsComeFromAdds | src/event/timer.cpp:142-284 | Every event generated has the topic and the arguments of an add of the run, and comes a period after it or later |
| TimerRuns.ToInt16IsCongruent | src/event/timer.cpp:145-147 | The id is the size of the list modulo 2^16 |
| TimerRuns.RateBound | src/event/timer.cpp:64-80 | In every run and for any clock, the k-th firing is no earlier than k periods after the creation, and a one-shot fires at most once |
| TimerRuns.ElapsedBound | src/event/timer.cpp:64-80 | With no clock reading beyond now, the number of firings times the period is at most the time since the creation |
| TimerRuns.FiringsAreSpaced | src/event/timer.cpp:64-80 | Any two firings of a timer in a row are at least a period apart |
| TimerRuns.AddKeepsAllIff | src/event/timer.cpp:142-173 | In every reachable state an add keeps all timers if and only if the size of the list is not an id yet |
| TimerRuns.IdsStayDense | src/event/timer.cpp:142-284 | In every run in which nothing is erased, ticks included, the ids are those of the first timers in turn, for up to 65536 adds |
| TimerRuns.DenseAddLosesIff | src/event/timer.cpp:142-173 | In such a run the next add loses a timer if and only if 65536 were added |
| TimerRuns.AddCanLose | src/event/timer.cpp:142-284 | A one-shot and a recurring timer, a tick and an add lose the recurring timer before it ever fired |
| VariableExpander.FindUnescaped | src/util/var.cpp:227-246 | Finds an unescaped needle with none before it, or there is none |
| VariableExpander.FindNextVariable | src/util/var.cpp:199-225 | The first variable token at or after the position |
| VariableExpander.ExpandVariables | src/util/var.cpp:166-178 | The replacement in place equals one left-to-right substitution of the original text; values are never read again |
| VariableExpander.SourceOfTokens | src/util/var.cpp:199-246 | The tokens of a text put together are the text: the reading loses nothing |
| ExpansionLaws.VariableFirst | src/util/var.cpp:166-225 | A dollar sign and a name, up to the first character that cannot go on with it, become the value of the variable, or nothing without one; what follows is substituted by itself |
| ExpansionLaws.OneVariable | src/util/var.cpp:166-225 | So does one variable anywhere in a text that is plain before it |
| ExpansionLaws.EscapeFirst | src/util/var.cpp:227-246 | A backslash keeps whatever stands behind it from being read |
| ExpansionLaws.UnescapingLaws | src/util/var.cpp:130-164 | Everything but a backslash stays, lone dollar signs too; an escaped backslash or dollar sign stays without its backslash, any other is the error, and a backslash at the end is dropped |
| ExpansionLaws.IdentifierCharsAre | src/util/var.cpp:20 | Which characters a name may have |
| ExpansionLaws.ValidIdentifierIff | src/util/var.cpp:180-188 | A name can be registered if and only if it is empty or of these characters and does not begin with a digit |
| VariableExpander.ExpansionEndsIff | src/util/var.cpp:199-225 | Under any variables the loop ends if and only if no unescaped dollar sign stands before a digit |
| VariableExpander.ExpansionEndsInSubstitution | src/util/var.cpp:166-225 | Where it ends, turn by turn, is the substitution of the original text |
| VariableExpander.RemoveEscapes | src/util/var.cpp:130-164 | Erasing backslashes in place equals unescaping the original |
| VariableExpander.UnescapeFailsIff | src/util/var.cpp:150-160 | It fails if and only if an escaping backslash stands before anything but a backslash or a dollar sign |
| VariableExpander.EscapeRoundTrip | src/util/var.cpp:124-164 | Expanding a text with every backslash and dollar sign escaped gives the text back under any variables |
| VariableExpander.Expander.RegisterInternal | src/util/var.cpp:48-57 | A valid new name gets the empty value; otherwise nothing changes |
| VariableExpander.Expander.UnregisterInternal | src/util/var.cpp:59-71 | Removes the variable, refuses an external one |
| VariableExpander.Expander.RegisterExternal | src/util/var.cpp:100-109 | The variable has the value of storage that belongs to somebody else |
| VariableExpander.Expander.UnregisterExternal | src/util/var.cpp:111-122 | Removes the variable, refuses an internal one |
| VariableExpander.Expander.SetValue | src/util/var.cpp:78-89 | Changes this internal variable and no other |
| VariableExpander.Expander.GetValue | src/util/var.cpp:91-98 | The value, or the empty string for a name that is not registered |
| VariableExpander.Expander.Expand | src/util/var.cpp:124-128 | Substitution and then unescaping, under the current values |
| ShellTokenizer.ShellTokenize | src/cmd/cmd.cpp:347-414 | Appends the tokens of the text |
| ShellTokenizer.TokenizeConcatenation | src/cmd/cmd.cpp:347-414 | Two texts with white space between them tokenize to the tokens of each, if the first ends outside quotes |
| ShellPieces.TokensOfPieces | src/cmd/cmd.cpp:347-414 | The tokens are what stands between white space outside quotes, the contents of bare and quoted stretches put together in order and the quotes left out; empty ones vanish, and an open quote counts as closed at the end |
| ShellPieces.EveryTextIsPieces | src/cmd/cmd.cpp:347-414 | Every text is such stretches with at most one open quote, so that this says what any text tokenizes to |
| ShellTokenizer.EveryCharacterCounts | src/cmd/cmd.cpp:347-414 | Every character is in a token, or is white space between tokens, or is a quote that opens or closes |
| ShellTokenizer.JoinArguments | src/event/timer.cpp:311-319 | The arguments from the second on, with single spaces between them |
| ShellTokenizer.JoinRoundTripIff | src/event/timer.cpp:311-319 | The joined command tokenizes to the arguments if and only if each is non-empty and without white space and quotes |
| ParamList.Parse | src/cmd/cmd.cpp:422-480 | The constructor's nested loops compute the parse |
| ParamList.ParsesIff | src/cmd/cmd.cpp:422-480 | It succeeds if and only if the tokens are of the grammar: clusters of known letters of which only the last takes an argument, followed by one that does not look like an option |
| ParamList.EveryTokenCounts | src/cmd/cmd.cpp:422-480 | Then every token is a positional, a cluster, an argument or the terminator; the arguments are the positionals in order, and every option has one value per occurrence, in order |
| ParamList.KindsAreUnique | src/cmd/cmd.cpp:422-480 | Each token can be only one of those |
| ParamList.ErrorExplained | src/cmd/cmd.cpp:440-472 | An unknown option is reported only for a letter that is none, a missing argument only for one that takes an argument and has none |
| ParamList.ClusterDecidedAt | src/cmd/cmd.cpp:440-472 | The first letter of a cluster that is unknown or takes an argument decides which error there is, or that the next token is used |
| ParamList.ArgumentTakenIff | src/cmd/cmd.cpp:447-464 | The token behind an option is its argument unless it has the form of a cluster, a colon behind the dash excepted |
| ParamList.LoneLetter | src/cmd/cmd.cpp:443-472 | A letter that is not declared and the colon are unknown options |
| ParamList.VerbatimAfterTerminator | src/cmd/cmd.cpp:432-436 | Everything after the first terminator is an argument as it stands |
| Numerals.Stol | compat/platform/android.hpp:234-383 | For numerals in range, base 10, the exact value and the position behind it |
| Numerals.ReadDigits | compat/platform/android.hpp:312-362 | The digit loop is exact and never overflows for numerals in range |
| Numerals.NumeralRead | compat/platform/android.hpp:234-383 | White space, a sign or none and digits up to another character read as the signed number and the end of the digits; no digits and out of range are the errors |
| Numerals.ParseDecimal | compat/platform/android.hpp:234-383 | A printed number followed by no digit is read back with its end position |
| PluginVersion.Parse | src/plugin/plugin.hpp:45-77 | The constructor's steps compute the parse, with the wrap-around of the size guards |
| PluginVersion.GoesOnIff | src/plugin/plugin.hpp:53-76 | Another part is read if and only if the separator is there, a dot or before the build a b, and at least two characters follow it |
| PluginVersion.LeadingV | src/plugin/plugin.hpp:48-52 | One leading v of either case makes no difference |
| PluginVersion.ToUint32IsCongruent | src/plugin/plugin.hpp:55-76 | A part is cast modulo 2^32, negative ones too |
| PluginVersion.PrintedThenParsed | src/plugin/plugin.hpp:45-85 | What is left of any version after printing and parsing |
| PluginVersion.RoundTripIff | src/plugin/plugin.hpp:45-85 | A version comes back if and only if its build is at least 10, or is 0 with a debug of 0 or at least 10 |
| Strings.TrimSplits | src/util/string.cpp:8-50 | Trimming takes blanks off both ends, and all of them |
| Strings.TrimOf | src/util/string.cpp:8-50 | Nothing but the part between the blanks can be the result |
| Alphabets.UpperOfLetters | src/util/string.cpp:52-59 | Upper case takes each small letter to its capital and leaves every other character |
| Alphabets.BlanksAndSpaces | src/util/string.cpp:6 | Which characters are trimmed, and which are white space for the tokenizer |
| ConfigFile.Load | src/cfg/cfg.cpp:82-125 | The line loop gives the config of the text, or nothing after any error; an unterminated last line is ignored |
| ConfigFile.Loader.Interpret | src/cfg/cfg.cpp:127-143 | A line is a header, a pair or an error, and changes the config and the section accordingly |
| ConfigFile.Loader.ReadSectionHeader | src/cfg/cfg.cpp:145-151 | A header replaces the section; a bad one still becomes the current section |
| ConfigFile.Loader.ReadKvPair | src/cfg/cfg.cpp:153-212 | Key, index and value of the line, or the first error with the config unchanged |
| ConfigFile.Loader.Store | src/cfg/cfg.cpp:194-211 | Padding one by one up to an explicit index equals the padded list with the value set |
| ConfigLines.WithValueSets | src/cfg/cfg.cpp:194-211 | An explicit index sets that value and no other, with empty values between the old end and it; without an index the value comes last |
| ConfigLines.PairLineMeans | src/cfg/cfg.cpp:106-212 | A line of a key in any letter case, an index or none, a value with or without quotes, blanks and a comment sets that value in the current section and changes nothing else |
| ConfigLines.HeaderLineMeans | src/cfg/cfg.cpp:127-151 | A header line in any letter case, with blanks and a comment, begins its section anew |
| ConfigLines.IndexedLines | src/cfg/cfg.cpp:194-211 | K[2] = c and K[0] = a load as a, an empty value, and c |
| ConfigLines.BadIndexRefused | src/cfg/cfg.cpp:164-177 | An index that is not digits only, or no int, is an error |
| ConfigLines.BadKeyRefused | src/cfg/cfg.cpp:179-186 | So is an empty key, and one that is no identifier in upper case |
| ConfigLines.LoadFailsIff | src/cfg/cfg.cpp:82-125 | A file is refused if and only if one of its complete lines is bad, wherever it stands; what follows the last newline does not matter |
| ConfigWriter.Save | src/cfg/cfg.cpp:47-80 | The blank section first, the others with headers in the order of the map |
| ConfigWriter.WriteSection | src/cfg/cfg.cpp:223-253 | One line per value, with indices where there are several |
| ConfigWriter.ValueForms | src/cfg/cfg.cpp:223-253 | A value alone has no index, two have 0 and 1 |
| ConfigWriter.FileForm | src/cfg/cfg.cpp:47-80 | The blank section stands first and without a header, and an empty line follows each section |
| ConfigWriter.InOrder | src/cfg/cfg.cpp:47-80 | Sections and keys are written in the order of their names |
| OrderedStrings.LessIff | src/cfg/cfg.cpp:69 | That is the lexicographic order |
| ConfigRoundTrip.RereadIff | src/cfg/cfg.cpp:188-253 | A value without newlines is read back unchanged if and only if it has no comment sign and starts with a blank, or is trimmed and not quoted |
| ConfigRoundTrip.LineRead | src/cfg/cfg.cpp:153-253 | A line written for a key, index and value is read as that key, index and reread value |
| ConfigRoundTrip.LoadOfSave | src/cfg/cfg.cpp:47-253 | Loading a saved config gives every section under its name, every list in order and every value as reread |
| ConfigRoundTrip.TextKeepsClean | src/cfg/cfg.cpp:82-212 | Whatever loads has identifiers for names and keys, no empty list, and no comment sign or newline in a value |
| ConfigRoundTrip.RoundTripIff | src/cfg/cfg.cpp:47-253 | A config is loaded as it was saved if and only if it is storable |
| IncludeScanner.FindFile | scripts/gendeps.py:195-209 | The last directory with the file wins; it is a dependency if the source directory has it |
| IncludeSearch.ResolvedIs | scripts/gendeps.py:195-209 | The directory of the including file wins if it has the file, else the last include path that has it; there is no file only if none has |
| IncludeSearch.DependencyIff | scripts/gendeps.py:195-209 | An include is a dependency if and only if the source directory is among those searched and has the file |
| IncludeSearch.DirNameOf | scripts/gendeps.py:200 | The directory of a path is what stands before its last slashes |
| IncludeScanner.ScanDeps | scripts/gendeps.py:159-193 | The recursion over the shared lists ends on every include graph and computes the scan |
| IncludeReachability.ScansExactlyTheReachable | scripts/gendeps.py:159-193 | The files scanned are exactly those that can be reached from the root through files not excluded, each once |
| IncludeReachability.OneDependencyPerFile | scripts/gendeps.py:169-193 | At most one dependency per scanned file, in the order of scanning |
| IncludeSearch.ScannedAsFound | scripts/gendeps.py:159-193 | The root comes first under its own name, and every other scanned file was found by an include of a reachable file and is a dependency if and only if that include makes it one |
| IncludeSearch.DepthFirst | scripts/gendeps.py:175-192 | What the first include finds is scanned next after the file itself |
| IncludeReports.ReportsExactly | scripts/gendeps.py:178-192 | Reported are exactly the includes of reachable files that cannot be located, and the excluded files that a reachable file includes |
| IncludeReports.ScanIgnoresReports | scripts/gendeps.py:159-193 | What was reported before has no effect on what is scanned |
| IncludeReports.GenerateRecipes | scripts/gendeps.py:76-90 | Although the modules share the reports, each gets the dependencies it would get on its own |
| IncludeReports.ModuleComesFirst | scripts/gendeps.py:87 | The module is its own first dependency, under the variable for the source directory |
| OutputDevices.OutputContext.SwitchDevice | src/output/output.cpp:458-471 | The flag moves to an existing device; a missing one changes nothing |
| OutputDevices.OutputContext.SwitchToNextDevice | src/output/output.cpp:426-446 | Goes to the first id in map order that is not bad, or fails without a change |
| OutputDevices.OutputContext.AddDevice | src/output/output.cpp:146-171 | A new id with a registered handler is added, and becomes active if nothing was |
| OutputDevices.OutputContext.RemoveDevice | src/output/output.cpp:186-213 | Erases the device, after leaving it if it is active, or fails without a change |
| OutputDevices.OutputContext.RegisterHandler | src/output/output.cpp:271-285 | A name new to the type is added, another refused |
| OutputDevices.OutputContext.UnregisterHandler | src/output/output.cpp:287-316 | Leaves devices with the handler until one without it is active, and then erases it; the loop ends |
| OutputRuns.OneActiveDevice | src/output/output.cpp:146-316 | In every reachable state the active device exists and alone carries the flag, and only without devices is there none |
| OutputRuns.NeverWithoutActiveDevice | src/output/output.cpp:146-316 | Once a device is active there is an active one for ever, whatever fails or is removed |
| OutputRuns.AddAddsOne | src/output/output.cpp:146-171 | It fails if and only if the handler is not registered or the id is taken; else the new device has the registered handler, is active if it is the first, and no other device changes |
| OutputRuns.OthersStay | src/output/output.cpp:186-228 | Switching and removing leave all handlers and every other device as they were, but for the flags |
| OutputRuns.RegisterAddsOne | src/output/output.cpp:271-285 | One handler is added and every other of any type is kept, with its function; a taken name changes nothing |
| OutputRuns.UnregisterTakesOne | src/output/output.cpp:287-316 | One handler goes and every other is kept; the devices keep their types and handlers, and a name that is not registered changes nothing |
| OutputRuns.IdsAreUnique | src/output/output.cpp:384-409 | Different addresses have different ids |
| OutputRuns.RemoveFailsIff | src/output/output.cpp:186-213 | Only a missing device or the only one cannot be removed, and the active one is followed by the first other |
| OutputRuns.UnregisterFailsIff | src/output/output.cpp:287-316 | It fails if and only if every device has the handler, ending at the last device tried; otherwise it ends at the first device without the handler, or where it was |
| OutputRuns.ActiveIsNotUnregistered | src/output/output.cpp:287-316 | After success in any reachable state the active device does not have the handler |
| OutputRuns.UnregisterIsCleanIff | src/output/output.cpp:287-316 | After success all devices have registered handlers if and only if none had this one |

## Left out

- DispatchTheorems.MutualExclusion: like all theorems about dispatcher runs it speaks of runs up to the first use of something NULL, freed or deleted; MisuseIff says exactly which steps are such uses.
- DispatchProgress.ShutdownCompletesIff: says that the end can be reached, not that it is, because a handler need not reach an interrupt point or return; no fairness is assumed. The same holds of DispatchProgress.InterruptionEndsIff.
- VariableExpander.ExpandVariables: asked only for texts without an unescaped dollar sign before a digit, since the loop does not end on others, which ExpansionEndsIff proves.
- Numerals.Stol: asked only about numerals whose digits fit a 64-bit long, since beyond them the code relies on signed overflow; other bases and `stoi`, the same code for int, are not modelled.
- ConfigRoundTrip.RoundTripIff: the lists have at most 2^31 values, as an int counts them when saving.
- ConfigFile.Loader.ReadKvPair: the front of an empty value is taken to be its terminating null, as the usual string implementation has it.
- Timers.TimerContext.AddTimer: `schedule`, the arguments as objects, and the mutex are left out; the mutex makes each call one step.
- Timers.TimerContext.FireTimers: the log line that reads an iterator after the erase (`src/event/timer.cpp:277`) is left out.
- OutputDevices.OutputContext.AddDevice: the error message that reads a device after its disposal (`src/output/output.cpp:162`) is left out, and the address is given with its type instead of as an untyped pointer.
- DispatchObject.EventDispatchContext.Run: the objects perform one interleaving given to them; contexts are numbered instead of pointed to, and the local variables of the EDT are in its position.
- DispatchShutdown.WaitCycleIff: one call of `quit()` by a handler and one from outside; a second call by handlers, which takes a handler resumed in cleanup, is not modelled.
- In `quit()`: the branch for a status of CREATED, the deletion of the timer context, and joining one thread twice, which is undefined by itself.
- In `edt_run`: the subscription map, read once per event as an arbitrary answer; `check_timers` is a step without effect on the dispatcher.
- IncludeReports.GenerateRecipes: the names of targets, the compiler line and the parsing of the script's own arguments; reading the includes of a file is a given map.
- `cmd_timer` beyond the join of its arguments, and the accessors of `ParamList`, which read one field each.
- Opening files, getline on a stream, logging, speech output, sleeping, and the thread, mutex and condition wrappers.
- `msa.cpp`, plugin loading, the input devices and the Python daemon.
