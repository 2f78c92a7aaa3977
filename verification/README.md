# Verified models of the web runtime and the job scheduler

Dafny models of the parts of the repository whose correctness is not obvious from reading one function:
the AMD module loader, jQuery's callback lists and deferreds, Sizzle's compiled matchers and document order,
Backbone's collection, Underscore's `throttle` and `debounce`, prettify's two normalisations, the table with its
pages, and the job scheduler of the Java side. Each module proves what its component promises for every input,
every schedule or every reachable state. `dafny verify dfyconfig.toml` checks everything.

| file | component |
|---|---|
| `Wrappers.dfy` | the option type that all modules share |
| `LoaderState.dfy`, `LoaderSteps.dfy`, `LoaderTheorems.dfy` | module loader: state and invariant, one lemma per step, consequences |
| `DefineQueue.dfy`, `Loader.dfy`, `LoaderHistories.dfy` | the queue of `define` calls, the context object, whole histories |
| `TrimDots.dfy` | normalisation of relative module names |
| `Callbacks.dfy` | `jQuery.Callbacks`, step by step |
| `CallbackHistories.dfy`, `ReportHistories.dfy` | whole histories of "once memory" and of "memory" lists |
| `Deferred.dfy`, `When.dfy` | `jQuery.Deferred`, `jQuery.when` |
| `SelectorMatching.dfy`, `NthChild.dfy`, `TreeOrder.dfy` | Sizzle: combinator walks with their caches, `:nth-child`, document order and `uniqueSort` |
| `Lists.dfy` | lists without duplicates, shared by `Collection.dfy` and `Table.dfy` |
| `Collection.dfy` | `Backbone.Collection` without a comparator |
| `Scheduler.dfy`, `Schedules.dfy` | the job scheduler as interleaved thread steps, and over whole schedules |
| `Timing.dfy` | `_.throttle`, `_.debounce` |
| `Prettify.dfy` | merging of character ranges, compaction of decorations |
| `Table.dfy` | `UITable` over `PageList` |

## How the models are built

* The loader's context is a class whose fields are the source's registries. A Module object is a row of the map
  `mods`; that there is one object per id is part of the invariant. Factories are pure functions of their
  arguments, because `require` defers through `nextTick`. `Inv` holds at every step of every nested emit, enable
  and cycle break; `Quiet` is `Inv` between two public operations.
* A `require` call takes in the queued definitions twice, at once and in the next tick; a history has an event for
  each. What is left in the queue is carried from one event to the next.
* Callback lists are re-entrant. The call of a listed function is a step of its own: between `Advance` and
  `Return` anyone may add, remove, fire, lock or disable. Every addition has a serial number, and a ledger says
  for each number whether it was called, still has its turn, or was dropped. `CallbackHistories.Run` turns this into
  a statement about whole histories of additions, removals, fires, returns and disabling: with all its moving
  indices, the list calls exactly whom a plain waiting line (`Played`) calls. `ReportHistories.Run` does the same for
  lists that are fired again and again, such as the progress list of a deferred.
* Sizzle's caches are real state: one slot per node and direction, overwritten by whichever walk comes last,
  stamped with `dirruns` and `cachedruns`. The specification (`Matches`, `WalkMatches`, `Selects`) has no cache, and
  `Reaches` says without recursion what a selector selects: a node from which a chain of nodes follows its tokens.
* Threads and timers of the environment are explicit. The scheduler's methods are the atomic steps of its threads
  and `Run` takes any schedule; `ThreadStep` is the program of the scheduler thread, one step at a time; timers fire at any time from the moment they are due.
* Each `Run` ties the outcome to the history: which jobs were submitted, which calls were made when, which list a
  plain reading of the operations gives.
* The arrays of the table are objects, so that the list of the pages can be the array of the table itself.

## Where the code does less than it promises

* `completeLoad` says that a second `define` call without a name waits for its own script, but it has taken that call
  off the queue and loses it. Nothing is lost if and only if no call without a name comes after one of the script's
  own (`AllTakenIn`). Calls made later are then put before the last one left over, not behind it (`Taken`).
* `empty` makes a disabled callback list accept functions again, and one that was never fired can then be fired
  (`Revived`). Every other operation keeps a disabled list disabled.
* A replacing `Collection.set` with repeated new ids leaves a list with repeated models and a wrong `length`
  (`SameNewIdTwice`). It leaves a valid collection if and only if no input that is a model object, a valid hash or
  found in the list is followed by one that names the same model (`Set`, `Repeats`).
* Changing the id of a listed model keeps the index right if and only if no other listed model has the new id
  (`ChangeId`); `IdTakenOver` shows what goes wrong otherwise.
* A job object submitted again while an earlier submission is on its way has one id for both, and an entry of
  `finishedJobs` is lost (`SubmittedTwice`). Recording a job loses an entry if and only if its id is recorded already
  (`Finish`), and the jobs on their way each get an entry if and only if they are different objects none of which
  is recorded under the id it has (`Drain`).
* `throttle` with `leading: false` runs the function on the leading edge of a burst whenever the previous run was
  that of a call, which happens when a timer is late or trailing runs are disabled (`LeadingEdgeAnyway`). A call
  runs at once if and only if `wait` has passed since `previous` (`Throttle.Invoke`); it cannot be the first after a
  timer's run (`FirstCallWaits`).
* `removeItemOnCurrentPage` with a row that is not shown, below the page or negative, takes an item of another page
  out of the list. With a filter the list and the table then disagree, if there is such an item, and only then
  (`UITable.RemoveItemOnCurrentPage`, `RowBelow`).
* `_filter` builds its pages with the size the table had when its beans were set, not with the one chosen since
  (`PageSizeForgotten`).
* `trimDots` leaves a "." or a ".." beyond the first segment if and only if the path leads two levels above its start,
  or leaves its first and only name by two ".." in a row (`NormalUnlessGivenUp`; `LeftAsItIs` is the smallest case).
  It still keeps what the path means.

## Model

| member | source | states |
|---|---|---|
| `LoaderHistories.Run` | src/main/webapp/js/libs/require/require.js:1209-1226 | for any history of loaded scripts and `require` calls on any dependency graph: once no enabled module waits for its script and no call for its next tick, every callback has run exactly once and everything reachable from it is defined. If no nameless call is lost, every `define` call of the history is taken in and a module is what the first call for it says; if there is one for every module that something depends on, all callbacks have been called |
| `LoaderHistories.AllProvided` | src/main/webapp/js/libs/require/require.js:640-698 | if every module that a definition or `require` call of the history depends on is defined in it, nothing is still being loaded |
| `Loader.Context.Execute` | src/main/webapp/js/libs/require/require.js:855-899 | the factory is called once, with the exports collected so far; the export is its own `module.exports`, else what it returned, else the `exports` object it asked for |
| `Loader.Context.Check` | src/main/webapp/js/libs/require/require.js:832-929 | keeps the invariant with this module no longer pending, undoes nothing, and enables, creates and forces nothing, through all nested notifications |
| `Loader.Context.Emit` | src/main/webapp/js/libs/require/require.js:1152-1155 | every listener of a defined module has been served: no delivery is owed any more |
| `Loader.Context.OnDefined` | src/main/webapp/js/libs/require/require.js:496-513 | the newly counted slot is either delivered or has a listener on a module that is not defined, even for a module nobody has heard of |
| `Loader.Context.Enable` | src/main/webapp/js/libs/require/require.js:1077-1142 | terminates on cyclic graphs and leaves the module enabled and settled, with all its registered dependencies enabled |
| `Loader.Context.Answer` | src/main/webapp/js/libs/require/require.js:556-594 | the special names deliver `require`, `exports` and `module` of the asking module without being counted |
| `Loader.Context.Init` | src/main/webapp/js/libs/require/require.js:734-782 | a module keeps its first definition; the invariant is kept |
| `Loader.Context.BreakCycle` | src/main/webapp/js/libs/require/require.js:602-628 | terminates; afterwards the module and all modules traced on the way are defined, and unless an edge was forced nothing has changed |
| `Loader.Context.Force` | src/main/webapp/js/libs/require/require.js:615-617 | a forced edge leads to an ancestor on the current path, and forcing it keeps the invariant of the traversal |
| `Loader.Context.CheckLoaded` | src/main/webapp/js/libs/require/require.js:630-698 | answers every `require` call if nothing is loading, and otherwise, or on an acyclic graph, does nothing |
| `Loader.Context.Define` | src/main/webapp/js/libs/require/require.js:1165-1170 | a name without an export gets the definition, unless it already has one |
| `Loader.Context.IntakeDefines` | src/main/webapp/js/libs/require/require.js:1209-1226 | every queued definition up to the first without a name, which is an error, is taken in, the first for a module defining it; nothing else becomes known, nothing achieved is undone, and what is left in the queue is stated |
| `Loader.Context.Require` | src/main/webapp/js/libs/require/require.js:1400-1416 | queued definitions are taken in, then a fresh enabled module is made for the callback; if nothing is loading, every `require` call has been answered on return; a nameless definition in the queue means no module |
| `Loader.Context.CompleteLoad` | src/main/webapp/js/libs/require/require.js:1507-1555 | all definitions of the script up to a second one of its own without a name are known afterwards; unless it was known, the expected module is what its first named or nameless definition says, or an empty module; if nothing is loading any more, every call is answered |
| `Loader.Context.TakeDefinitions` | src/main/webapp/js/libs/require/require.js:1514-1533 | the first nameless definition is the one of the script, the first definition for a module counts, nothing else becomes known; a second nameless one ends the loop, and what it leaves in the queue is stated |
| `DefineQueue.AllTakenIn` | src/main/webapp/js/libs/require/require.js:1514-1533 | the loop takes in the whole queue if and only if no nameless definition comes after one of the script's own; otherwise it loses exactly one |
| `DefineQueue.TakenIs` | src/main/webapp/js/libs/require/require.js:544-554 | no queued call is lost or changes its order; with nothing left over, the queue is what was queued, and otherwise the last call left over stays last |
| `LoaderSteps.DeliverStep` | src/main/webapp/js/libs/require/require.js:784-792 | `depCount` stays the number of counted slots not yet matched, and the listener of the slot is closed |
| `LoaderSteps.WireStep` | src/main/webapp/js/libs/require/require.js:1107-1112 | counting one more slot keeps `depCount` exact and leaves one delivery owed |
| `LoaderSteps.DefineStep` | src/main/webapp/js/libs/require/require.js:854-923 | a module is defined only with no delivery outstanding, leaves both registries, and then owes its listeners one notification each |
| `LoaderTheorems.FactoryRunsOnce` | src/main/webapp/js/libs/require/require.js:854-915 | a factory is called at most once, and exactly once if and only if its module is defined |
| `LoaderTheorems.ExportsAreRight` | src/main/webapp/js/libs/require/require.js:873-904 | what a module exports for ever is what the single call of its factory made of its arguments: its own `module.exports`, or what it returned, or the `exports` object it asked for |
| `LoaderTheorems.ArgumentsAreRight` | src/main/webapp/js/libs/require/require.js:1100-1112 | each argument is a special value, the export of the defined dependency, or what that dependency had exported when an edge on a cycle was forced |
| `LoaderTheorems.DefinedClosed` | src/main/webapp/js/libs/require/require.js:784-792 | whatever a defined module reaches through dependencies is defined |
| `LoaderTheorems.ForcedEdgeOnCycle` | src/main/webapp/js/libs/require/require.js:613-617 | every edge that was ever forced lies on a dependency cycle |
| `LoaderTheorems.AcyclicUnforced` | src/main/webapp/js/libs/require/require.js:602-628 | on an acyclic graph no edge is ever forced |
| `TrimDots.Segments.TrimDots` | src/main/webapp/js/libs/require/require.js:229-251 | terminates and keeps where the path leads (levels up, then names) |
| `TrimDots.TrimmedKeepsMeaning` | src/main/webapp/js/libs/require/require.js:229-251 | every turn of the loop keeps the meaning of the path |
| `TrimDots.NormalUnlessGivenUp` | src/main/webapp/js/libs/require/require.js:229-251 | no "." and no ".." beyond index 0 are left, if and only if the path neither leads two levels above its start nor leaves its first and only name by two ".." in a row |
| `TrimDots.LeftAsItIs` | src/main/webapp/js/libs/require/require.js:236-243 | the path a/../.. is left as it is, although it leads just one level up |
| `TrimDots.Idempotent` | src/main/webapp/js/libs/require/require.js:229-251 | trimming twice is trimming once, for any segments |
| `TrimDots.GivingUpClimbs` | src/main/webapp/js/libs/require/require.js:236-243 | every path on which the loop stops early climbs above its start |
| `TrimDots.TrimmedIsNames` | src/main/webapp/js/libs/require/require.js:229-251 | a path that does not climb above its start is reduced to exactly its names |
| `Callbacks.CallbackList.Fire` | src/main/webapp/js/libs/jquery/jquery.js:3040-3065 | a round starts at `firingStart` with every function from there on still to be called, and its arguments are remembered if the options say so |
| `Callbacks.CallbackList.Return` | src/main/webapp/js/libs/jquery/jquery.js:3047-3064 | when a function returns, the next one that is still listed is called, or the round ends as the options say: the next waiting fire starts, or the arguments stay remembered unless a false stopped the round |
| `Callbacks.CallbackList.Add` | src/main/webapp/js/libs/jquery/jquery.js:3069-3098 | additions join the round in progress, or are called at once with the remembered arguments, or wait; nobody else loses a turn |
| `Callbacks.AddedUnique` | src/main/webapp/js/libs/jquery/jquery.js:3073-3084 | in a list of unique functions all that were given are listed afterwards, and none twice |
| `Callbacks.AddedPlain` | src/main/webapp/js/libs/jquery/jquery.js:3073-3084 | otherwise all that were given join the list, in order, repeated or not |
| `Callbacks.CallbackList.Remove` | src/main/webapp/js/libs/jquery/jquery.js:3100-3119 | every occurrence goes, the rest of the round is exactly what was left of it, and exactly those removed before their turn lose it |
| `Callbacks.CallbackList.FireWith` | src/main/webapp/js/libs/jquery/jquery.js:3153-3164 | a fire during a round waits for its end or is ignored, and a list that can fire only once never starts a second round |
| `Callbacks.CallbackList.Lock` | src/main/webapp/js/libs/jquery/jquery.js:3141-3147 | no further rounds; a remembered round stays, its arguments are kept, and additions are still served with them |
| `Callbacks.CallbackList.DisableList` | src/main/webapp/js/libs/jquery/jquery.js:3132-3135 | the list is silent, also in the middle of a round, and stays so as long as `empty` is not called |
| `Callbacks.CallbackList.Empty` | src/main/webapp/js/libs/jquery/jquery.js:3126-3130 | the rest of the round is dropped; what the list remembers, whether it was fired and what waits on its stack stay |
| `Callbacks.Revived` | src/main/webapp/js/libs/jquery/jquery.js:3126-3135 | a list disabled before its first fire, then emptied, calls a function that is added and fired |
| `CallbackHistories.Run` | src/main/webapp/js/libs/jquery/jquery.js:3040-3167 | for any history of a "once memory" list (additions, removals, fires, returns, disabling): it calls exactly whom a plain waiting line calls; it has been fired if and only if the history says so; nobody is called twice; after the fire everyone has been called whose function was not removed after its addition and before its turn; in addition order, with the arguments of the first fire; without removals the calls are exactly the additions |
| `CallbackHistories.Perform` | src/main/webapp/js/libs/jquery/jquery.js:3040-3167 | one event keeps the list, with its moving indices, in step with the waiting line |
| `CallbackHistories.LineOf` | src/main/webapp/js/libs/jquery/jquery.js:3040-3167 | in the waiting line nobody is forgotten, called twice or called out of turn, and whoever is out was removed by name after the addition, or disabled |
| `CallbackHistories.LineServesAll` | src/main/webapp/js/libs/jquery/jquery.js:3040-3167 | once the line has been fired and no function is running, each addition has been called once, or not at all if it was removed |
| `ReportHistories.Run` | src/main/webapp/js/libs/jquery/jquery.js:3040-3164 | for any history of a "memory" list (additions, removals, fires, returns): once no function is running, every listed function has been called with each report from the one that was the latest at its addition on, once each and in order, and the last report is remembered |
| `ReportHistories.LatestIsHeard` | src/main/webapp/js/libs/jquery/jquery.js:3086-3094 | a function added after a report, while none is running, is called at once with the latest report |
| `Callbacks.ExactlyOnce` | src/main/webapp/js/libs/jquery/jquery.js:3040-3167 | after the single fire of a "once memory" list, every function added before, during or after it and not removed before its turn has been called exactly once, in addition order, with the same arguments |
| `Callbacks.AtMostOnce` | src/main/webapp/js/libs/jquery/jquery.js:3040-3167 | at no moment has an addition been called twice, nor one that still waits or was removed |
| `Callbacks.AddJoinsRound` | src/main/webapp/js/libs/jquery/jquery.js:3086-3089 | an addition made during a round joins it if and only if the running function is still within the list |
| `Deferred.DeferredObject.Resolve` | src/main/webapp/js/libs/jquery/jquery.js:3238-3252 | leaves "pending" once: the state is set and the other list silenced before any listener is called, and later calls do nothing |
| `Deferred.DeferredObject.Reject` | src/main/webapp/js/libs/jquery/jquery.js:3238-3252 | the same for rejection |
| `Deferred.DeferredObject.Done` | src/main/webapp/js/libs/jquery/jquery.js:3230-3235 | listeners wait for the resolution, or are called at once with its values if it has happened, or never if the deferred is rejected |
| `Deferred.DeferredObject.Fail` | src/main/webapp/js/libs/jquery/jquery.js:3230-3235 | the same for rejection |
| `Deferred.DeferredObject.Notify` | src/main/webapp/js/libs/jquery/jquery.js:3185-3252 | while pending the progress functions are called with the report, which is remembered, or will be after the current round; once the deferred is settled nothing happens |
| `Deferred.DeferredObject.ListenerReturns` | src/main/webapp/js/libs/jquery/jquery.js:3235-3245 | done listeners run only when resolved, fail listeners only when rejected, whatever listeners do; the next one is called, or what was reported stays remembered |
| `Deferred.NeverBoth` | src/main/webapp/js/libs/jquery/jquery.js:3238-3245 | done and fail functions are never both called, and neither while pending |
| `Deferred.LateListener` | src/main/webapp/js/libs/jquery/jquery.js:3185-3252 | a progress listener that comes after a report is called with it at once |
| `When.WhenObject.constructor` | src/main/webapp/js/libs/jquery/jquery.js:3268-3317 | plain values and deferreds that are pending, resolved or rejected, with or without reported progress: `remaining` becomes the number of unresolved ones, and with none the master is resolved with the values at once |
| `When.CallWhen` | src/main/webapp/js/libs/jquery/jquery.js:3268-3317 | a single deferred is handed back itself; otherwise the new master is resolved if and only if every argument is a value or resolved, with all values in the order of the arguments, and rejected if and only if one is rejected |
| `When.WhenObject.Attach` | src/main/webapp/js/libs/jquery/jquery.js:3300-3304 | what has happened to an argument before the call is counted while the listeners are attached |
| `When.WhenObject.SubordinateDone` | src/main/webapp/js/libs/jquery/jquery.js:3280-3290 | `remaining` stays the number of unresolved subordinates and the master resolves, with the values in argument order, exactly at zero |
| `When.WhenObject.SubordinateFail` | src/main/webapp/js/libs/jquery/jquery.js:3300-3304 | the first rejection rejects the master; later ones change nothing |
| `When.WhenObject.SubordinateProgress` | src/main/webapp/js/libs/jquery/jquery.js:3280-3285 | the report of one subordinate, even a settled one that repeats it, is passed on with the latest ones of the others, and progress never settles the master |
| `When.MasterFollows` | src/main/webapp/js/libs/jquery/jquery.js:3268-3317 | the master is resolved if and only if all subordinates are, and rejected if and only if one is |
| `SelectorMatching.Sizzle.RunWalk` | src/main/webapp/js/libs/jquery/jquery.js:2475-2523 | the cached walk answers as the walk without a cache, and leaves only true notes |
| `SelectorMatching.Sizzle.Match` | src/main/webapp/js/libs/jquery/jquery.js:2525-2537 | a compiled matcher answers as its meaning says, for every node, and touches only its own notes |
| `SelectorMatching.Sizzle.MatcherFromTokens` | src/main/webapp/js/libs/jquery/jquery.js:2653-2706 | the compiled matcher matches a node if and only if a chain of nodes follows the tokens from there, and all its cache names are new |
| `SelectorMatching.Sizzle.SuperMatcher` | src/main/webapp/js/libs/jquery/jquery.js:2713-2802 | over a whole run, exactly the candidates that some matcher accepts, in order, however the caches were overwritten meanwhile |
| `SelectorMatching.Sizzle.Find` | src/main/webapp/js/libs/jquery/jquery.js:2809-2834 | compiling and running selects, in order, exactly the candidates from which a chain of nodes follows the tokens of one of the selectors, whatever earlier runs have left |
| `SelectorMatching.WalkIsExistential` | src/main/webapp/js/libs/jquery/jquery.js:2490-2522 | the ancestor or general sibling combinator holds if and only if some node in that direction matches |
| `SelectorMatching.WalkIsNearest` | src/main/webapp/js/libs/jquery/jquery.js:2480-2488 | the child or adjacent combinator holds if and only if the nearest eligible node in that direction matches |
| `SelectorMatching.SelectsIsChain` | src/main/webapp/js/libs/jquery/jquery.js:2653-2706 | what the tokens select, read from right to left, is what a chain of nodes reaches: each filter holds at its node and each combinator leads from one node to the next, the first to a context node |
| `SelectorMatching.CombinatorsMean` | src/main/webapp/js/libs/jquery/jquery.js:1930-1935 | ">" leads to the parent only, "+" to the preceding sibling only, " " to every ancestor element, "~" to every preceding sibling element |
| `SelectorMatching.ChildIsNotDescendant` | src/main/webapp/js/libs/jquery/jquery.js:1930-1935 | in div > p > span the span is selected by "div span" and not by "div > span" |
| `NthChild.Parent.SeekForward` | src/main/webapp/js/libs/jquery/jquery.js:2095-2114 | the search that resumes from the remembered index ends with the element's position among its siblings |
| `NthChild.Parent.SeekBackward` | src/main/webapp/js/libs/jquery/jquery.js:2116-2137 | the position from the back, remembered or not, and only true positions are remembered |
| `NthChild.NextRun` | src/main/webapp/js/libs/jquery/jquery.js:2095-2137 | what an earlier run has remembered is no obstacle to a later one |
| `NthChild.Ask` | src/main/webapp/js/libs/jquery/jquery.js:2095-2137 | over any number of runs on one parent, asking in any order from either end, all answers are the positions |
| `NthChild.SeekPlain` | src/main/webapp/js/libs/jquery/jquery.js:2121-2137 | the search without notes, for the variants by node name, in either direction |
| `NthChild.PositionIsSize` | src/main/webapp/js/libs/jquery/jquery.js:2095-2137 | the position is the number of siblings that count up to the element, or from it on |
| `NthChild.PositionsAddUp` | src/main/webapp/js/libs/jquery/jquery.js:2093-2137 | the positions from the front and from the back add up to the number of siblings plus one |
| `NthChild.NthTestIsCorrect` | src/main/webapp/js/libs/jquery/jquery.js:2139-2141 | for all integers a and b, the test holds if and only if the position is a*n+b for some n >= 0 |
| `NthChild.ShortcutAgrees` | src/main/webapp/js/libs/jquery/jquery.js:2062-2067 | the shortcut for `:nth-*(n)` agrees with the general test |
| `TreeOrder.SiblingCheck` | src/main/webapp/js/libs/jquery/jquery.js:1362-1383 | the sibling scan decides the order of two children, and a missing node comes first |
| `TreeOrder.Ancestors` | src/main/webapp/js/libs/jquery/jquery.js:1760-1767 | the collected list is the path from the root |
| `TreeOrder.SortOrder` | src/main/webapp/js/libs/jquery/jquery.js:1731-1782 | the comparator has the sign of the difference of the positions in document order |
| `TreeOrder.TotalOrder` | src/main/webapp/js/libs/jquery/jquery.js:1731-1782 | document order is the lexicographic order of child-index paths, and distinct nodes have distinct positions |
| `TreeOrder.PreorderComplete` | src/main/webapp/js/libs/jquery/jquery.js:1731-1782 | every node of the tree is in the preorder listing |
| `TreeOrder.PosUnique` | src/main/webapp/js/libs/jquery/jquery.js:1731-1782 | no node is listed twice |
| `TreeOrder.Results.RemoveDuplicates` | src/main/webapp/js/libs/jquery/jquery.js:1868-1879 | of a sorted result, what is left is strictly increasing in document order and has the same nodes |
| `TreeOrder.StrictlyInOrder` | src/main/webapp/js/libs/jquery/jquery.js:1868-1877 | dropping neighbours that repeat leaves strictly increasing positions |
| `TreeOrder.OneResult` | src/main/webapp/js/libs/jquery/jquery.js:1868-1877 | there is only one result: it depends on the set of nodes, not on how often they came or how they were sorted |
| `Collection.CollectionObject.Get` | src/main/webapp/js/libs/backbonejs/backbonejs-1.1.0.js:799-802 | lookup by id or cid agrees with a linear scan of the models: the object itself or the model with the id, if it is listed |
| `Collection.ScanMeans` | src/main/webapp/js/libs/backbonejs/backbonejs-1.1.0.js:799-802 | what a scan finds is the object given or has the id given, and if it finds nothing no model is or has |
| `Collection.CollectionObject.Remove` | src/main/webapp/js/libs/backbonejs/backbonejs-1.1.0.js:636-656 | exactly the models that some input is, or has the id of, leave the list, the index and the listeners, also while `set` has indexed models it has not listed |
| `Collection.CollectionObject.Set` | src/main/webapp/js/libs/backbonejs/backbonejs-1.1.0.js:662-751 | for all options and positions, the resulting list; the index always agrees with it, and `length` and uniqueness hold if and only if, before a replacing call, no input that is an object, a valid hash or found in the list is followed by one that names the same model |
| `Collection.TakenIn` | src/main/webapp/js/libs/backbonejs/backbonejs-1.1.0.js:678-711 | an input is taken in if and only if it, or an earlier one that names the same model, is an object, a valid hash or found in the list |
| `Collection.DistinctUnlessRepeats` | src/main/webapp/js/libs/backbonejs/backbonejs-1.1.0.js:678-711 | whether two inputs taken in name the same model can be told from the inputs and the list before the call |
| `Collection.CollectionObject.Add` | src/main/webapp/js/libs/backbonejs/backbonejs-1.1.0.js:631-633 | keeps the collection valid for any inputs, repeated ones included, and removes nothing |
| `Collection.CollectionObject.Reset` | src/main/webapp/js/libs/backbonejs/backbonejs-1.1.0.js:757-767 | a valid collection of the new models only |
| `Collection.CollectionObject.ChangeId` | src/main/webapp/js/libs/backbonejs/backbonejs-1.1.0.js:929-937 | the collection stays valid if and only if no other listed model has the new id |
| `Collection.IdTakenOver` | src/main/webapp/js/libs/backbonejs/backbonejs-1.1.0.js:932-935 | a model that takes over the id of another listed model: lookup finds the one, a scan the other |
| `Collection.Run` | src/main/webapp/js/libs/backbonejs/backbonejs-1.1.0.js:631-767 | over any run of add, remove, set, reset, id changes and new models made elsewhere, with no model named again in a replacing `set` and unused new ids, the list, the ids and the data are what the operations say, one by one, and the collection stays valid: `length` is right, no model is listed twice, and lookup agrees with a scan |
| `Collection.Reconciles` | src/main/webapp/js/libs/backbonejs/backbonejs-1.1.0.js:662-751 | with default options and pairwise different valid inputs, the list is the inputs in order: the existing instance with the attributes merged in, those given winning, the object itself, or a new model |
| `Collection.OthersGo` | src/main/webapp/js/libs/backbonejs/backbonejs-1.1.0.js:713-719 | models that no input names are gone from the list and keep their attributes |
| `Collection.OptionsMean` | src/main/webapp/js/libs/backbonejs/backbonejs-1.1.0.js:675-711 | without `merge` no model changes its attributes, and without `add` none is made or entered |
| `Collection.ResultMeans` | src/main/webapp/js/libs/backbonejs/backbonejs-1.1.0.js:713-735 | without `add` nothing new is listed; without `remove` all models stay, before the new ones if no position is given; with `remove` only models that stand for an input stay |
| `Collection.RepsAgree` | src/main/webapp/js/libs/backbonejs/backbonejs-1.1.0.js:678-711 | two inputs end up as one model if and only if they are the same object or have equal ids |
| `Collection.SpliceAllIsBlock` | src/main/webapp/js/libs/backbonejs/backbonejs-1.1.0.js:725-728 | models added at a position within the list form one block there, in order |
| `Collection.SameNewIdTwice` | src/main/webapp/js/libs/backbonejs/backbonejs-1.1.0.js:710-735 | two hashes with the same new id: the model is listed twice and `length` is 1 |
| `Schedules.Run` | src/main/java/com/neverwinterdp/ringbearer/job/RingBeaderJobScheduler.java:31-90 | any interleaving of submitters, scheduler thread, runners and `stop` leads where its acts, one by one, lead: every field is that of the plain reading; no job is lost or doubled, and objects are shared only if the schedule submits one twice |
| `Schedules.AllGetFinished` | src/main/java/com/neverwinterdp/ringbearer/job/RingBeaderJobScheduler.java:72-85 | without `stop`, however the steps are mixed, all accepted jobs get finished, in order, if the runners that have been started end and the thread gets two steps, eight times for each job |
| `Schedules.StopEnds` | src/main/java/com/neverwinterdp/ringbearer/job/RingBeaderJobScheduler.java:65-88 | after `stop` a running thread has ended once it has had six steps, whatever else happens, and has finished at most the job it held |
| `Schedules.EachRecorded` | src/main/java/com/neverwinterdp/ringbearer/job/RingBeaderJobScheduler.java:83-83 | if no object is submitted twice, each finished job has one record, under its own id, in the order in which they were accepted |
| `Scheduler.JobScheduler.Step` | src/main/java/com/neverwinterdp/ringbearer/job/RingBeaderJobScheduler.java:72-89 | one step of the thread is one step of its program, and brings an empty queue nearer unless it looks at a live runner |
| `Scheduler.InOnePlace` | src/main/java/com/neverwinterdp/ringbearer/job/RingBeaderJobScheduler.java:72-89 | accepted jobs are the finished ones, the held one and the queue, in that order; at most one runner is alive; a finished job's runner is dead; ids on the way are distinct |
| `Scheduler.JobScheduler.Offer` | src/main/java/com/neverwinterdp/ringbearer/job/RingBeaderJobScheduler.java:31-34 | an accepted job enters the queue at its end, whatever happened since it got its id |
| `Scheduler.JobScheduler.StartRunner` | src/main/java/com/neverwinterdp/ringbearer/job/RingBeaderJobScheduler.java:78-79 | a runner starts only when all earlier ones are dead |
| `Scheduler.JobScheduler.Finish` | src/main/java/com/neverwinterdp/ringbearer/job/RingBeaderJobScheduler.java:83-83 | a job is recorded after its runner died; it gets a new last entry if its id is not recorded yet, and the number of entries stays the same if and only if it is |
| `Scheduler.JobScheduler.Catch` | src/main/java/com/neverwinterdp/ringbearer/job/RingBeaderJobScheduler.java:86-88 | `stop` ends the thread; the job it was waiting for is neither lost nor recorded |
| `Scheduler.JobScheduler.Drain` | src/main/java/com/neverwinterdp/ringbearer/job/RingBeaderJobScheduler.java:76-85 | without `stop`, if runners end, every accepted job gets finished, in order; each gets an entry of its own if and only if the jobs on their way are different objects, none recorded already under its id |
| `Scheduler.PutAllSize` | src/main/java/com/neverwinterdp/ringbearer/job/RingBeaderJobScheduler.java:83-83 | recording a list of jobs adds an entry for each if and only if no id comes twice or is there already |
| `Scheduler.PutFound` | src/main/java/com/neverwinterdp/ringbearer/job/RingBeaderJobScheduler.java:83-83 | an id that is recorded keeps its place and gets the new job |
| `Scheduler.SubmittedTwice` | src/main/java/com/neverwinterdp/ringbearer/job/RingBeaderJobScheduler.java:31-34 | the same object submitted twice is completed twice and recorded once |
| `Timing.Throttle.Invoke` | src/main/webapp/js/libs/underscore/underscore-1.5.2.js:671-686 | for all options, exactly when a call runs the function at once; it leaves no timer then, and otherwise sets one exactly if trailing runs are on and none is pending, due one `wait` after `previous` |
| `Timing.Throttle.Later` | src/main/webapp/js/libs/underscore/underscore-1.5.2.js:666-670 | the timer runs the function with the arguments of the latest call |
| `Timing.RunThrottle` | src/main/webapp/js/libs/underscore/underscore-1.5.2.js:661-687 | for any sequence of calls and timer events, with the recorded calls and the clock those of the sequence: runs are `wait` apart; with trailing runs every call is answered or a timer is due in time; with `leading` every call that comes `wait` after the last run runs at once, and a timer is due exactly `wait` after it |
| `Timing.ThrottleKeepsApart` | src/main/webapp/js/libs/underscore/underscore-1.5.2.js:661-687 | any two runs are at least `wait` apart and at most one timer is pending |
| `Timing.NoCallLost` | src/main/webapp/js/libs/underscore/underscore-1.5.2.js:676-684 | with trailing runs, every call has been answered with its arguments or later ones, or a timer due within `wait` of it is pending |
| `Timing.LeadingEdgeAnyway` | src/main/webapp/js/libs/underscore/underscore-1.5.2.js:673-681 | with `leading: false`, an isolated call can run at once |
| `Timing.FirstCallWaits` | src/main/webapp/js/libs/underscore/underscore-1.5.2.js:671-684 | without `leading`, the first call, and the first after a timer's run, never runs at once and sets a timer for `wait` later |
| `Timing.Debounce.Invoke` | src/main/webapp/js/libs/underscore/underscore-1.5.2.js:695-714 | in immediate mode the function runs exactly on a call that finds no timer pending; in trailing mode never on a call |
| `Timing.Debounce.Later` | src/main/webapp/js/libs/underscore/underscore-1.5.2.js:699-707 | the timer is set again for `wait` after the latest call, or the burst is over and runs once in trailing mode |
| `Timing.RunDebounce` | src/main/webapp/js/libs/underscore/underscore-1.5.2.js:693-715 | for any sequence of calls and timer events, with the recorded calls and the clock those of the sequence: a silence of `wait` lies between two runs, and in trailing mode the last call is answered or a timer is pending |
| `Timing.OncePerBurst` | src/main/webapp/js/libs/underscore/underscore-1.5.2.js:693-715 | between two runs there is a silence of at least `wait`, and the runs are at least `wait` apart, in both modes |
| `Timing.LastCallAnswered` | src/main/webapp/js/libs/underscore/underscore-1.5.2.js:699-712 | in trailing mode the last call has been answered with its own arguments, `wait` after it, or a timer is pending |
| `Prettify.EitherCase` | src/main/webapp/js/libs/google-code-prettify/prettify.js:3-3 | the added ranges denote exactly the letters of the ranges in the other case |
| `Prettify.AddCases` | src/main/webapp/js/libs/google-code-prettify/prettify.js:3-3 | the loop over the ranges adds, for each, the ranges whose meaning `EitherCase` gives |
| `Prettify.Merge` | src/main/webapp/js/libs/google-code-prettify/prettify.js:3-3 | widening the last range in place computes the merged ranges |
| `Prettify.MergedKeeps` | src/main/webapp/js/libs/google-code-prettify/prettify.js:3-3 | merging sorted ranges keeps the set of code points and leaves increasing ranges that do not even touch |
| `Prettify.MergeIsCanonical` | src/main/webapp/js/libs/google-code-prettify/prettify.js:3-3 | equal sets of code points merge to the same ranges, however they were given |
| `Prettify.Normalised` | src/main/webapp/js/libs/google-code-prettify/prettify.js:3-3 | the whole normalisation: exactly the given code points in either case, for any order of equal lower ends |
| `Prettify.DropPass` | src/main/webapp/js/libs/google-code-prettify/prettify.js:16-16 | the first pass in place leaves the decorations that cover something |
| `Prettify.JoinPass` | src/main/webapp/js/libs/google-code-prettify/prettify.js:16-16 | the second pass in place joins neighbours of equal style |
| `Prettify.Compact` | src/main/webapp/js/libs/google-code-prettify/prettify.js:16-16 | both passes in one array compute the list whose meaning `CompactKeepsStyles` gives |
| `Prettify.CompactKeepsStyles` | src/main/webapp/js/libs/google-code-prettify/prettify.js:16-16 | both passes keep the style of every position of the text and leave strictly increasing starts with no equal neighbours |
| `Prettify.StyleIsLastStarted` | src/main/webapp/js/libs/google-code-prettify/prettify.js:16-16 | the style of a position is that of the last decoration that starts at or before it |
| `Table.PagesCover` | src/main/webapp/app/js/util/PageList.js:75-99 | the pages one after the other are the list: every item is on exactly one page |
| `Table.PageList.SetAvailablePage` | src/main/webapp/app/js/util/PageList.js:75-87 | as many pages as it takes for all items and no more, and at least one |
| `Table.PageList.GetPage` | src/main/webapp/app/js/util/PageList.js:60-72 | a page in range is cached as its slice of the list; out of range nothing changes |
| `Table.PageList.CurrentPageItems` | src/main/webapp/app/js/util/PageList.js:47-52 | the slice of the current page, cached or not |
| `Table.PageList.RemoveItemOnCurrentPage` | src/main/webapp/app/js/util/PageList.js:107-115 | one item goes, the page shown is the same or the last one left, and the cached page is its slice |
| `Table.UITable.Filter` | src/main/webapp/app/js/ui/UITable.js:318-344 | the list has exactly the items that pass the filter, or without a filter is the array of the table itself |
| `Table.ShowsFiltered` | src/main/webapp/app/js/ui/UITable.js:318-344 | whatever was done, the list has exactly the items of the table that pass its filter, in the same order |
| `Table.UITable.AddBean` | src/main/webapp/app/js/ui/UITable.js:125-135 | a new item is appended and the list is rebuilt |
| `Table.UITable.SelectPage` | src/main/webapp/app/js/ui/UITable.js:295-303 | a page in range is shown, and any other request leaves the page as it is |
| `Table.UITable.RemoveItemOnCurrentPage` | src/main/webapp/app/js/ui/UITable.js:112-120 | a row that is shown removes exactly its item from the table, with or without a filter, and the list stays the filtered subsequence; for any other row, below the page or negative, exactly when it does not |
| `Table.RowBelow` | src/main/webapp/app/js/ui/UITable.js:112-120 | with a filter, removing the row below the page shown takes its item from the list but not from the table |
| `Table.PageSizeForgotten` | src/main/webapp/app/js/ui/UITable.js:237-248 | after another page size was chosen, using the filter brings the old one back |
| `Table.RemovedFromList` | src/main/webapp/app/js/ui/UITable.js:112-120 | removing an item from the filtered list is filtering the array without it |

## Left out

- Loader.Context.CompleteLoad: shims and `enforceDefine` are not modelled.
- Loader.Context.Require: `onError` throws, as it does unless it is replaced; the synchronous `require("id")` is not modelled.
- Loader: errors and error listeners, plugins, path fallbacks, timeouts, `undef` and name normalisation other than `trimDots`; ids are normalised already.
- Loader: factories that call back into the loader while they run, so the `defining` flag is never seen set.
- Loader: Module objects are rows of a map and not separate objects; two objects for one id are excluded by the invariant, not by the heap.
- Loader.Context.CheckLoaded: the order in which the enabled modules are visited is arbitrary in the model.
- CallbackHistories.Run: `empty` and `lock` are not events of the histories, and functions that return false do not stop a round; for those the contracts of the single operations hold.
- ReportHistories.Run: `lock`, `disable` and `empty` are not events of the histories.
- Callbacks: contexts (`this`), nested arrays of functions in `add`, and exceptions thrown by functions.
- Deferred: `then`, `always`, `promise(obj)` and the initialiser function, which only combine the listeners modelled here.
- When.WhenObject.constructor: a single deferred makes no master, see `CallWhen`.
- When: contexts of the callbacks. Subordinates are modelled by what happens to them, and that each settles at most once is what `Deferred` proves.
- SelectorMatching: tokenising, positional and nested pseudos, XML documents without caches, seeds and set matchers; a filter is any predicate on nodes.
- SelectorMatching: runs nested in another run, which use a random fraction added to `dirruns`.
- NthChild: `first`, `last` and `only`, which scan siblings without arithmetic; a cache per pseudo type is one cache here.
- TreeOrder.Results.RemoveDuplicates: the engine's sort with the comparator is not modelled; its sorted result is the input.
- TreeOrder: `sourceIndex`, `compareDocumentPosition` and disconnected nodes.
- Collection: comparators and sorting, `parse`, events with listeners that change the collection, the `destroy` event, the `collection` back reference, and the values `set` and `remove` return for inputs not taken in.
- Collection: ids and cids are taken from disjoint sets, as the source assumes of its keys.
- Scheduler: script evaluation in the runner, unsynchronised reads of `finishedJobs`, a second `start`, and wrap-around of the id counter.
- Timing: results of the wrapped function, contexts, and a clock that goes backwards.
- Prettify: parsing and printing of the character class, escapes such as `\d`, and the DOM updates after the compaction; the sort is an input.
- Table: rendering, edits of beans in place (a filter is evaluated on the beans as added), state counts, `commitChange`, and `getSubRange`.
