# Verified models of actor-local storage, the census gate, CRDT accumulation and message addressing

This project models the parts of the repository whose correctness is hardest to see by reading, and proves
what they promise for all inputs, all runs or all interleavings. Each module is named after what it models.

**Actor-local weak map** (`WeakMapModel`, `WeakMapInvariant`, `WeakMapTheorems`, `WeakMapNesting`, `WeakMapDiscipline`,
`WeakMapProgress`, `WeakMapDrops`, `WeakMapReplay`, `WeakMapExamples`). Keys and maps index each other under two mutexes, and each side's destructor
repairs the other. The model is a transition system with any number of threads, keys and maps; a step is one lock
acquisition, one table update, one `Weak::upgrade` or one reference-count change, and a thread's stack holds the
operations nested in it, including a destructor run by the last temporary `Arc` of another destructor. Addresses are
recycled as soon as no `Weak` pins them. A thread may call `entry` and drop keys and maps also while it holds Entries.
An invariant kept by every step gives, in all runs, the two-way index and the absence of leaks and of stale aliasing.
`WeakMapReplay` computes from the actions of a run alone which values were written and which handles are owned, and proves
that `entry` and the tables agree with it.

The code says that no deadlock is possible (`hyperactor/src/actor_local.rs:125-129, 199-201`), and its documentation that
each `ActorLocal` has a lock of its own (46-49, 711-712). Neither holds without a condition: the lock belongs to the
actor's whole storage (658-660, 741-745), so a thread that waits for a map's entries while it holds an `Entry` can wait
for itself or in a circle. `DeadlockIff` proves that every deadlock consists of such threads, so that there is none
while no thread nests (`DeadlockFree`). Reachable states show what goes wrong: a second `entry` on a held map
(`SecondEntryExample`), two threads that ask for each other's maps (`CrossedEntriesExample`), and the last reference of a
key dropped while an `Entry` of a map that stores the key is held (`DropUnderEntryExample`). `SecondEntryFinishesIff` and
`DropUnderEntryFinishesIff` state exactly when what has begun can still be brought to an end. That it can does not mean
that it will: other threads may drop the maps and keys that a destructor visits, so that it comes to destroy, nested in
it, a key that the held map does store (`NestedDropExample`). `WeakMapDiscipline` gives two sets of rules for callers
under which every run is deadlock-free and every operation ends: one thread may nest, and then drop anything while the
maps it holds store only keys that its Entries borrow; or all threads may nest entries, in increasing order of a rank of
the maps. `ActorLocalStorage` models the typed slots on top, with panics of `downcast` as results, and
`ActorLocalRefinement` reads its storages off the weak map's states at rest.

**Census gate** (`RustLexer`, `RustLexerTheorems`, `RustLexerRegions`, `LineLookup`, `BlockOwnership`, `CensusGate`). The
hand-written lexer's loops are proved equal to a function of the text. `RustLexerRegions` defines the comments, strings and
char literals of a text without it, and proves that each view is blank exactly inside the regions it hides and shows the
text elsewhere; both views are fixpoints. The promise
that both views keep length and newlines is false for char literals that span a newline or run past the end; it is
proved to hold exactly when there are none. Such a newline shifts every later match to another line's symbol, silently
(`WrongSymbolExample`) or with an index error (`NoSymbolExample`); `LineAttribution` and `EverySymbolExistsIff` state
exactly when. The brace-depth stack machine is proved equal to a declarative meaning of
"innermost open block" over depths and headers that are stated on the lines themselves, and the gate to accept exactly
one-to-one correspondences and to report exactly what is wrong otherwise.

**Lattices and reduction** (`Lattice`, `Crdt`, `Reduction`, `Accumulators`). Any tree of partial reductions agrees with
accumulating the same set of updates one by one. The last-writer-wins register is a semilattice exactly on histories
where a stamp determines its value, and its bottom is an identity exactly away from stamp (0, 0) or at the default value.

**Send completion** (`Completion`, `CompletionSink`). The one-shot outcome cell as interleaved atomic accesses by one
sender and one repeatedly polled receipt; sinks with their boxed closures written out as data.

**Addresses and routing** (`ChannelUrl`, `ChannelUrlTheorems`, `AddrOrder`, `PrefixRouting`, `DialRouter`). Which
addresses the URL parser recovers from the printer's text; the order and the prefix relation on addresses, whose
equality ignores display labels; and the routers that rest on them. `MailboxRouter::bind` is documented to route to
the longest matching prefix (`hyperactor/src/mailbox.rs:3553-3555`). The code looks only at the greatest bound address
not above the destination, so a bound actor hides its proc from every later actor of that proc: `ShadowedExample` is
such a table, and `ActorRoutedIff` states exactly when an actor is routed.

`Options` holds the shared option and result types. `dafny verify dfyconfig.toml` covers every file.

## Model

| member | source | states |
|---|---|---|
| `WeakMapInvariant.InvStep` | hyperactor/src/actor_local.rs:117-139 | Every atomic step of every operation, destructors and nested operations included, keeps the invariant tying tables, locks, reference counts and thread stacks together |
| `WeakMapInvariant.ReachableInv` | hyperactor/src/actor_local.rs:142-211 | Every state of every run of any number of threads, keys and maps satisfies that invariant |
| `WeakMapTheorems.DeadlockFree` | hyperactor/src/actor_local.rs:125-139 | In every reachable state in which no thread waits for a map while holding an Entry, a thread inside an operation can step, or waits for one that can, or waits for one that waits for one that can |
| `WeakMapTheorems.DeadlockIff` | hyperactor/src/actor_local.rs:199-211 | In every reachable state some threads deadlock iff threads that wait for a map while holding an Entry deadlock among themselves |
| `WeakMapTheorems.DeadlockOfOneIff` | hyperactor/src/actor_local.rs:741-745 | When at most one thread nests, there is a deadlock iff it waits for a map whose Entry it holds |
| `WeakMapTheorems.BlockerHolds` | hyperactor/src/actor_local.rs:198-211 | The holder of an awaited lock is inside an operation, and is blocked itself only when it holds a map's entries and wants a key's `maps`, or nests |
| `WeakMapTheorems.TwoWayIndex` | hyperactor/src/actor_local.rs:372-402 | For a live key and a live map whose entries are unlocked, the map holds the key iff the key has the map registered |
| `WeakMapTheorems.DeadOnlyWhileDropping` | hyperactor/src/actor_local.rs:130-138 | A dead node stays in a live table only while its own drop loop runs and has that table still to visit |
| `WeakMapTheorems.EntryMatchesSpec` | hyperactor/src/actor_local.rs:232-251 | `entry` reports Occupied exactly for pairs in the abstract contents, with their value; `WeakMapReplay.SpecIsWritten` says what those contents are |
| `WeakMapTheorems.QuiescentContents` | hyperactor/src/actor_local.rs:372-402 | With no operation running, entries are exactly the live keys inserted and not removed, and registrations exactly the maps a key is in |
| `WeakMapTheorems.QuiescentNoLeak` | hyperactor/src/actor_local.rs:191-211 | With no operation running, every slot refers to a live node and every dead allocation can be freed |
| `WeakMapTheorems.FreshIsVacant` | hyperactor/src/actor_local.rs:147-167 | A new key or map is in no table whatever recycled address it gets |
| `WeakMapTheorems.AddressIsReusable` | hyperactor/src/actor_local.rs:147-167 | At rest a destroyed allocation can be freed and a new key or map can then be given its address |
| `WeakMapTheorems.EntryOffers` | hyperactor/src/actor_local.rs:232-251 | The holder of an Entry can always let go of it, insert exactly when it is vacant, and write or remove exactly when it is occupied |
| `WeakMapTheorems.CallerMay` | hyperactor/src/actor_local.rs:142-211 | Outside operations a caller can always call `entry` with what it owns, also under an Entry, clone a key, and drop a handle that is not borrowed |
| `WeakMapReplay.WriteEffect` | hyperactor/src/actor_local.rs:353-402 | A completed insertion, a write and a removal change the slot at the key's address in that map and the pair's value, to the value given or to none, and no other slot, pair, lock, reference or phase |
| `WeakMapReplay.SpecIsWritten` | hyperactor/src/actor_local.rs:353-402 | In every run the abstract contents are, for the keys and maps still alive, the argument of the last completed insertion or write of each pair with no later removal, computed from the actions alone |
| `WeakMapReplay.EntryMatchesWrites` | hyperactor/src/actor_local.rs:232-251 | In every run `entry` reports Occupied exactly for pairs that the actions inserted and did not remove, and its slot holds the value the actions last wrote |
| `WeakMapReplay.LiveWhileOwned` | hyperactor/src/actor_local.rs:117-211 | A key or map is alive while the run's actions leave it an owned handle, and longer only while a destructor holds its temporary Arc |
| `WeakMapReplay.QuiescentIsWritten` | hyperactor/src/actor_local.rs:372-402 | With no operation running, exactly what is owned is alive, and an owned map holds exactly the owned keys whose last write was not removed, with that value, and is registered with exactly those |
| `WeakMapNesting.DeadlockedForever` | hyperactor/src/actor_local.rs:232-251 | Threads of a deadlock never move again, in any continuation by any threads |
| `WeakMapNesting.RunnerFor` | hyperactor/src/actor_local.rs:125-139 | Without a deadlock every thread inside an operation waits, directly or not, for one that can step |
| `WeakMapNesting.SecondEntryOutcome` | hyperactor/src/actor_local.rs:741-745 | `entry` on a map whose Entry the thread holds never returns, in any continuation; on any other map, as long as the call waits and no other thread nests, there is no deadlock and somebody it waits for can step |
| `WeakMapNesting.DropUnderEntryHangs` | hyperactor/src/actor_local.rs:124-139 | Dropping the last reference of a key while holding an Entry of a map that stores it never ends, in any continuation |
| `WeakMapNesting.DropUnderEntryWaitsIff` | hyperactor/src/actor_local.rs:130-138 | The dropped key's own destructor, as opposed to those nested in it, can come to wait for a map whose Entry is held iff that map stores the key |
| `WeakMapDrops.DropUnderEntryFinishesIff` | hyperactor/src/actor_local.rs:124-139 | When other threads keep to the discipline, the drop of a last reference under held Entries, and all else that has begun, can still be brought to an end iff no map whose Entry is held stores the node; for a map it always can |
| `WeakMapExamples.SecondEntryExample` | hyperactor/src/actor_local.rs:46-49 | A reachable state in which one thread deadlocks on its second entry of one map |
| `WeakMapExamples.CrossedEntriesExample` | hyperactor/src/actor_local.rs:711-712 | A reachable state in which two threads, each holding an Entry of one map, deadlock on the other's |
| `WeakMapExamples.DropUnderEntryExample` | hyperactor/src/actor_local.rs:125-139 | A reachable state in which dropping a key under an Entry hangs |
| `WeakMapExamples.NestedDropExample` | hyperactor/src/actor_local.rs:124-139 | A run in which a thread drops a key that the held map does not store, another thread that holds no Entry drops what its destructor visits, and the first thread deadlocks with itself in a nested destructor |
| `WeakMapDiscipline.TameStep` | hyperactor/src/actor_local.rs:232-251 | Every step that keeps to either discipline keeps every thread free of circular waits |
| `WeakMapDiscipline.DisciplinedDeadlockFree` | hyperactor/src/actor_local.rs:125-129 | In every state of every disciplined run nobody deadlocks and every waiting thread waits, directly or not, for one that can step |
| `WeakMapDiscipline.SelfContainedDropIsSafe` | hyperactor/src/actor_local.rs:124-139 | A drop under Entries of maps that store only keys these Entries borrow deadlocks nobody, whatever disciplined threads do afterwards, their drops included |
| `WeakMapDiscipline.RankedIsFree` | hyperactor/src/actor_local.rs:741-745 | Any number of threads may hold several Entries without deadlock when each takes further maps in increasing rank |
| `WeakMapProgress.ContinuesDecreases` | hyperactor/src/actor_local.rs:130-138 | Every step that continues an operation strictly decreases a measure of remaining work |
| `WeakMapProgress.ContinuationsAreFinite` | hyperactor/src/actor_local.rs:191-211 | No continuation of the running operations is longer than that measure |
| `WeakMapProgress.EveryOperationFinishes` | hyperactor/src/actor_local.rs:124-139 | From every disciplined state the running operations can be driven to quiescence; any order takes boundedly many steps, and any order that cannot go on has ended them all |
| `WeakMapProgress.EveryOperationFinishesOrDeadlocks` | hyperactor/src/actor_local.rs:124-139 | From every reachable state, operations that cannot be continued have all ended, or nesting threads have deadlocked |
| `WeakMapProgress.SecondEntryFinishesIff` | hyperactor/src/actor_local.rs:741-745 | When other threads keep to the discipline, a call of `entry` under a held Entry can end iff the thread holds no Entry of that map |
| `RustLexer.SkipBlockComment` | scripts/pytokio_removal_census.py:447-464 | The nested-comment loop stops where the recursive definition says |
| `RustLexer.SkipQuoted` | scripts/pytokio_removal_census.py:470-498 | The literal loop stops where the recursive definition says, possibly one past the end |
| `RustLexer.RawStringSpan` | scripts/pytokio_removal_census.py:505-527 | The raw-string scan finds exactly the first terminator with as many hashes, nothing when there is no opener, an error when unterminated |
| `RustLexer.LexRust` | scripts/pytokio_removal_census.py:412-502 | The main loop computes the two views as a function of the text and fails exactly when it does; `RustLexerRegions` states that function's value on the text alone |
| `RustLexerTheorems.QuoteEndIsFirstUnescaped` | scripts/pytokio_removal_census.py:470-498 | A literal ends at the first quote not preceded by an odd run of backslashes; without one it ends with the text, or one past it when the text ends in an escape |
| `RustLexerTheorems.BlockEndBalances` | scripts/pytokio_removal_census.py:447-464 | An offset is the end of a block comment iff the openers and closers first balance there, just after a closer, or it is the end of the text and they never do |
| `RustLexerTheorems.Alignment` | scripts/pytokio_removal_census.py:412-502 | The scannable view always shows the text with its newlines; the structural view does iff no char literal spans a newline or the end of the text |
| `RustLexerTheorems.MisalignedExample` | scripts/pytokio_removal_census.py:485-498 | A text whose structural view is longer than the text |
| `RustLexerTheorems.StructuralFixpoint` | scripts/pytokio_removal_census.py:412-547 | Re-lexing the structural view changes nothing: no comment, string or char-literal opener is left in it |
| `RustLexerTheorems.ScannableFixpoint` | scripts/pytokio_removal_census.py:412-547 | Re-lexing the scannable view returns it unchanged with the same structural view |
| `RustLexerRegions.TokenIffRegion` | scripts/pytokio_removal_census.py:438-500 | A token that is no plain character is exactly a line comment up to the next newline, a balanced block comment, a raw string up to the first quote with its hashes, or a string or char literal up to its first unescaped quote |
| `RustLexerRegions.LexesIff` | scripts/pytokio_removal_census.py:412-502 | The lexer succeeds iff the text can be cut into regions, each starting at the first opener after the one before |
| `RustLexerRegions.ViewsShowRegions` | scripts/pytokio_removal_census.py:412-502 | The scannable view is blank exactly inside comments, the structural view exactly inside any region, newlines kept except in char literals; every other offset shows the text, and only a char literal cut off in an escape makes a view longer |
| `RustLexerRegions.LexFailsIff` | scripts/pytokio_removal_census.py:505-527 | The lexer fails at an offset iff a raw string opens there, outside every earlier region, and no terminator with its hashes follows |
| `LineLookup.LineStarts` | scripts/pytokio_removal_census.py:862-868 | The loop lists the offsets that follow a newline, after 0 |
| `LineLookup.LookupCountsNewlines` | scripts/pytokio_removal_census.py:845-847 | The bisect lookup returns the number of newlines before the offset |
| `LineLookup.LineOfOffset` | scripts/pytokio_removal_census.py:843-844 | An offset lies on the line of `split` numbered by the newlines before it |
| `LineLookup.LinesJoin` | scripts/pytokio_removal_census.py:843-844 | Joining the lines by newlines gives the text, and no line holds a newline |
| `LineLookup.InCharLiteralIff` | scripts/pytokio_removal_census.py:485-498 | An offset counts as inside a char literal iff the region that holds it is one |
| `LineLookup.ShownNewlines` | scripts/pytokio_removal_census.py:485-498 | The structural view shows exactly the newlines that are not inside char literals |
| `LineLookup.LineAttribution` | scripts/pytokio_removal_census.py:841-859 | The index computed for a match is its source line, and equals its line of the structural view iff no newline before the match is inside a char literal |
| `LineLookup.SymbolExistsIff` | scripts/pytokio_removal_census.py:847-853 | A match has a symbol iff its source line plus the hidden newlines do not exceed the newlines of the text |
| `LineLookup.EverySymbolExistsIff` | scripts/pytokio_removal_census.py:847-853 | Every match has a symbol iff no newline is hidden, or one is and the text ends with a newline |
| `LineLookup.AttributeMatch` | scripts/pytokio_removal_census.py:841-859 | The whole lookup for one match: the declarative symbol of its source line's number among the structural lines, an error when the file does not parse, an index error exactly when the line is missing |
| `LineLookup.NoSymbolExample` | scripts/pytokio_removal_census.py:847-853 | A text in which a match raises an index error |
| `LineLookup.WrongSymbolExample` | scripts/pytokio_removal_census.py:847-853 | A text in which a match is silently given another line's symbol |
| `BlockOwnership.PopClosed` | scripts/pytokio_removal_census.py:774-776 | The pop loop leaves the longest prefix of the stack whose entry depths the line still reaches |
| `BlockOwnership.NextTracks` | scripts/pytokio_removal_census.py:773-821 | One line keeps the stack equal to the blocks still open: entry depths strictly increase, and a header is on the stack iff the depth never fell below its entry since |
| `BlockOwnership.EventsFailIff` | scripts/pytokio_removal_census.py:778-805 | The header logic fails iff some line ends as a declaration or overruns the limit inside a header begun earlier, or completes a header that does not parse |
| `BlockOwnership.EventsMean` | scripts/pytokio_removal_census.py:778-821 | Each line's depth is the opening minus the closing braces of the earlier lines that leave no header pending; its header is the parse of the line itself, or of the stripped lines joined from where the header began, exactly when the line completes one; its function is the match on that line |
| `BlockOwnership.StripKeeps` | scripts/pytokio_removal_census.py:781-798 | Stripping takes off exactly the white space at both ends |
| `BlockOwnership.EndsDeclarationIff` | scripts/pytokio_removal_census.py:784-796 | A line ends as a declaration iff its last character that is no white space is a semicolon |
| `BlockOwnership.RustSymbols` | scripts/pytokio_removal_census.py:752-822 | One symbol per line: `<module>` without a current function, else the function, after the qualifier of the innermost open block and `::` if there is one; depths, headers and functions are those of `EventsMean`; an error iff some line is refused |
| `CensusGate.Collapse` | scripts/pytokio_removal_census.py:876-914 | The output reports, in input order, every hit of other operations as it is, and of each file and per-file operation, or file, capture and capture operation, the first hit under `<file>` or the capture with its line and members and no capture; an error, with the line of the first one, exactly for a capture-less hit of a capture operation |
| `CensusGate.OnePerSurface` | scripts/pytokio_removal_census.py:904-914 | Per file and per-file operation, and per file, capture and capture operation, there is one output hit iff the input has any, and it carries the first one's line and members |
| `CensusGate.ValidateRows` | scripts/pytokio_removal_census.py:1201-1234 | No error iff every row is complete, its state known, its members pinned when it is an import and its own fields without complaint, and ids and locators are unique across active rows and tombstones; the errors are exactly those faults, a repeated locator with the id of the last row that claimed it |
| `CensusGate.Reconcile` | scripts/pytokio_removal_census.py:1415-1457 | No error iff every active row has one hit with equal members and every hit is claimed by an active row; the errors are exactly the rows without a hit, with several, with changed or unpinned members, and the unclaimed locators |
| `CensusGate.LocatorIsSite` | scripts/pytokio_removal_census.py:712-714 | A row and a hit, or two rows, share a locator iff path, symbol and operation agree |
| `CensusGate.ReconciledIsOneToOne` | scripts/pytokio_removal_census.py:1227-1234 | On valid rows a clean reconciliation is exactly a one-to-one correspondence between legacy rows and hits by locator with equal member sets |
| `CensusGate.Check` | scripts/pytokio_removal_census.py:1513-1535 | The gate reports nothing iff rows are valid, rows and hits correspond one to one, and transitions, matrix and totals report nothing; otherwise it reports exactly the faults of the rows, the discrepancies with the hits and those reports |
| `CensusGate.TombstoneReappears` | scripts/pytokio_removal_census.py:1419-1421 | A hit at a tombstone's locator always yields an error |
| `CensusGate.NetZeroSwap` | scripts/pytokio_removal_census.py:1449-1456 | Replacing one site by another, which leaves every count unchanged, always yields an error |
| `Lattice.JoinIsLub` | algebra/src/lib.rs:462-467 | In the order derived from `join`, `join` is the least upper bound |
| `Lattice.JoinAllIsLub` | algebra/src/lib.rs:471-476 | `join_all` is the least upper bound of its elements whatever their order and multiplicity |
| `Lattice.JoinAllFromBottom` | algebra/src/lib.rs:519-524 | `join_all_from_bottom` agrees with `join_all` on every non-empty input when bottom is an identity |
| `Crdt.MaxMinSemilattices` | algebra/src/join_semilattice.rs:86-94 | `Max` and `Min` are semilattices whose derived orders are the numeric order and its reverse |
| `Crdt.LatticeMapJoin` | algebra/src/join_semilattice.rs:473-490 | The merge loop, in any iteration order, yields the union of keys with shared values joined: the keys of both, shared ones with the join of the left and the right value |
| `Crdt.MapSemilattice` | algebra/src/join_semilattice.rs:473-490 | Associativity, commutativity and idempotence of the map join follow from those of its values |
| `Crdt.MapLeqIsPointwise` | algebra/src/lib.rs:462-467 | `leq` on maps holds iff keys are included and values pointwise below |
| `Crdt.LwwSemilatticeIffConsistent` | algebra/src/crdt.rs:99-122 | `LWW` is a semilattice on a history iff no stamp carries two values there |
| `Crdt.LwwLaterWins` | algebra/src/crdt.rs:101-118 | A join is one of the two writes, not earlier than either by timestamp and then replica, and the left one at equal stamps; `leq` is that order |
| `Crdt.LwwJoinAllIsLatest` | algebra/src/lib.rs:471-476 | `join_all` of any non-empty history is the first of its writes with the greatest timestamp and replica |
| `Crdt.LwwHistoryLatest` | algebra/src/crdt.rs:84-118 | In a consistent history `join_all` is a given write iff no write is later by timestamp and then replica |
| `Crdt.LwwBottomIdentityIff` | algebra/src/crdt.rs:124-132 | `bottom` is an identity for a register iff its stamp is not (0, 0) or its value is the default |
| `Crdt.LwwBottomLosesExample` | algebra/src/crdt.rs:124-132 | A register written at stamp (0, 0) is lost when joined into bottom |
| `Reduction.ReduceUpdates` | hyperactor/src/accum.rs:130-153 | The batch's left fold, or the input vector unchanged when it is empty or any reduction fails |
| `Reduction.ReduceKeepsOrder` | hyperactor/src/accum.rs:130-153 | Updates are combined in their order, earlier ones on the left |
| `Reduction.LatticeTreeReduces` | hyperactor/src/accum.rs:130-153 | `reduce_updates` with a lattice reducer never fails on a tree of non-empty batches and computes `join_all` of each |
| `Reduction.ReduceIsLub` | hyperactor/src/accum.rs:390-399 | Reducing any tree of batches yields the least upper bound of its leaves |
| `Reduction.ReductionRefinesAccumulation` | hyperactor/src/accum.rs:400-408 | Passing updates through `reduce_updates` in batches, however nested, ordered and duplicated, never fails, and accumulating the results gives the state of accumulating the same set of updates one by one |
| `Reduction.SumTreeIsTotal` | hyperactor/src/accum.rs:287-294 | Any tree of u64 additions succeeds iff the total fits, and yields the total |
| `Reduction.SumIgnoresOrderAndGrouping` | hyperactor/src/accum.rs:287-306 | Two groupings and orders of the same multiset of updates give the same sum, or both overflow |
| `Reduction.SumCountsDuplicates` | hyperactor/src/accum.rs:287-294 | A repeated non-zero update changes a sum, so sums tolerate no duplication |
| `Accumulators.AccumulateAll` | hyperactor/src/accum.rs:404-408 | Updating the state in place delivery by delivery computes the fold |
| `Accumulators.WatermarkTracksLatest` | hyperactor/src/accum.rs:500-507 | After any deliveries the tracked ranks are those seen and each holds its report with the greatest timestamp |
| `Accumulators.WatermarkIgnoresOrder` | hyperactor/src/accum.rs:500-507 | Reordering and duplicating deliveries leaves the state unchanged when a rank's timestamp determines its value |
| `Accumulators.WatermarkThroughReduction` | hyperactor/src/accum.rs:390-408 | The same holds when the deliveries pass through any trees of partial reductions |
| `Accumulators.WatermarkGet` | hyperactor/src/accum.rs:465-475 | The least tracked value; a panic exactly on the empty map |
| `Accumulators.WatermarkEndToEnd` | hyperactor/src/accum.rs:455-507 | After a non-empty delivery, however batched, reordered and repeated, the watermark is the minimum of the ranks' latest values |
| `Accumulators.GCounterGet` | hyperactor/src/accum.rs:524-528 | The sum of all ranks' counts in whatever order; overflow exactly when the total does not fit in u64 |
| `Accumulators.GetIsMonotone` | hyperactor/src/accum.rs:524-528 | A counter below another in `leq` has no greater total |
| `Accumulators.GCounterBounds` | hyperactor/src/accum.rs:550-554 | A join keeps the greater count of every rank, so its total is at least each side's and at most their sum |
| `Accumulators.PnValueExact` | hyperactor/src/accum.rs:569-577 | The value is the exact difference when both totals are i64 values, and under wrapping subtraction iff the true difference is one |
| `Completion.ReachableInv` | hyperactor/src/channel.rs:178-254 | Every interleaving of the sender's and the receipt's atomic accesses keeps the protocol invariant |
| `Completion.StatusStoredOnce` | hyperactor/src/channel.rs:194-221 | The status is stored exactly once, by the time the sender is gone |
| `Completion.StatusIsFinal` | hyperactor/src/channel.rs:194-221 | No continuation changes a status that has left Pending |
| `Completion.ResultMatchesOutcome` | hyperactor/src/channel.rs:238-254 | A resolved poll reports what the sender did; a dropped sender reports Ok |
| `Completion.RejectedMessageConserved` | hyperactor/src/channel.rs:201-250 | A rejected message is at every moment in exactly one place: with the sender, in the slot, or handed back by exactly one poll |
| `Completion.ExpectFiresIff` | hyperactor/src/channel.rs:238-250 | The `expect` at the take fires iff an earlier poll already handed the message back |
| `Completion.PollAfterErrorPanics` | hyperactor/src/channel.rs:238-250 | Polling again after an error always panics |
| `Completion.PolledUntilReadyNeverPanics` | hyperactor/src/channel.rs:223-254 | A receipt polled only until ready never panics, in any interleaving |
| `Completion.NoLostWakeup` | hyperactor/src/channel.rs:223-234 | When the last poll returned Pending and the sender has finished, that poll's waker was woken |
| `Completion.NextPollResolves` | hyperactor/src/channel.rs:223-254 | Once the sender is gone, the next poll reports its outcome |
| `Completion.PollsReportTheRun` | hyperactor/src/channel.rs:194-254 | In every run each resolved poll reports the run's one disposal of the sender: the message given to `reject`, or success for `accept` and a drop |
| `CompletionSink.ContramapMeaning` | hyperactor/src/channel.rs:321-347 | One adapter passes acceptance through and maps a rejection, or turns it into acceptance, for every kind of sink |
| `CompletionSink.ChainMeaning` | hyperactor/src/channel.rs:321-370 | A chain of any length behaves as the original sink on the Option-composition of its mappers, captured senders' drops included |
| `CompletionSink.ReceiptThroughChain` | hyperactor/src/channel.rs:210-221 | Behind any chain a receipt resolves to Ok on accept, to the composed error on reject, or to Ok when a mapper yields nothing; its waker is woken once and nothing else changes |
| `CompletionSink.TrackedThroughChain` | hyperactor/src/channel.rs:340-370 | A tracked sink counts once per outcome and calls its function once, iff a composed error reaches it |
| `CompletionSink.TrackedCountsOnce` | hyperactor/src/channel.rs:273-277 | The count is exactly one whatever the tracked closure captures and however it is wrapped |
| `CompletionSink.CallbackThroughChain` | hyperactor/src/channel.rs:321-370 | Behind any chain a plain callback is called once with the composed error, iff one reaches it, and an ignored outcome has no effect |
| `CompletionSink.SenderAloneMatches` | hyperactor/src/channel.rs:194-221 | The sender's protocol steps, run without interference, have the cell effect the sinks use |
| `ChannelUrlTheorems.RoundTripIff` | hyperactor/src/channel.rs:1177-1300 | Parsing the printed form returns the same address, without a lookup, exactly for Tcp without IPv6 scope and flow, TLS-family addresses with a normalized host other than "*", every Local, Unix names their codec recovers, and aliases of a recoverable Tcp to a recoverable Tcp or alias |
| `ChannelUrlTheorems.PrintedText` | hyperactor/src/channel.rs:1286-1300 | The text of every kind of address, scheme by scheme, with its numbers as decimal numerals |
| `ChannelUrlTheorems.ParsedIffDenotes` | hyperactor/src/channel.rs:1177-1300 | The parser returns an address exactly for the URLs that denote it: scheme, host up to the last colon with `*` for the unspecified address and literals with or without brackets, port in range, and aliases as two Tcp URLs around the first `@` |
| `ChannelUrlTheorems.DigitsArePlaceValue` | hyperactor/src/channel.rs:1276-1281 | Numerals are read in base ten, most significant digit first, and anything else is refused |
| `ChannelUrlTheorems.ParseUnsignedIff` | hyperactor/src/channel.rs:1230-1235 | An unsigned number is a non-empty numeral, after an optional plus sign, below the type's bound |
| `ChannelUrlTheorems.ParseI32Iff` | hyperactor/src/channel.rs:1265-1267 | A descriptor number is a signed numeral in the range of i32 |
| `ChannelUrlTheorems.HasFdIff` | hyperactor/src/channel.rs:1260-1275 | A descriptor is adopted iff `fd` and a number follow the last colon |
| `ChannelUrlTheorems.LookupIff` | hyperactor/src/channel.rs:1303-1326 | A Tcp text leads to a name lookup iff its host is neither `*` nor an IP literal, and the name looked up is the host without brackets |
| `ChannelUrlTheorems.HostPortRoundTrip` | hyperactor/src/channel.rs:1258-1283 | A printed host and port is split at the last colon and never taken for a file descriptor |
| `ChannelUrlTheorems.NormalizeIsIdempotent` | hyperactor/src/channel.rs:1117-1130 | Normalizing a host twice is normalizing it once |
| `ChannelUrlTheorems.NormalizeMeans` | hyperactor/src/channel.rs:1117-1130 | A host that is an IP literal, bare or in brackets, becomes the literal's canonical text; any other host is kept |
| `ChannelUrlTheorems.NewTlsAddrRoundTrips` | hyperactor/src/channel.rs:540-547 | An address built by `TlsAddr::new` comes back iff the host given was not "*" |
| `ChannelUrlTheorems.WildcardHostExample` | hyperactor/src/channel.rs:1237-1251 | A TLS address with host "*" comes back with the unspecified IPv6 address |
| `ChannelUrlTheorems.TcpNeedsDnsIff` | hyperactor/src/channel.rs:1303-1326 | A printed Tcp address reaches name lookup iff it has an IPv6 scope, never a descriptor, and otherwise loses only its flow label |
| `ChannelUrlTheorems.DialIsPlain` | hyperactor/src/channel.rs:1182-1209 | The dial address of a parsed alias is never itself an alias |
| `ChannelUrlTheorems.AliasDialsItsTarget` | hyperactor/src/channel.rs:1139-1144 | Canonicalizing what was parsed from a printed alias gives the alias's own dial address |
| `AddrOrder.CmpAgreesWithEq` | hyperactor/src/addr.rs:710-741 | `cmp` is antisymmetric and total, and Equal exactly on addresses equal up to display labels |
| `AddrOrder.CmpTransitive` | hyperactor/src/addr.rs:710-741 | `cmp` is transitive, strictly when either step is strict |
| `AddrOrder.CmpIsLexicographic` | hyperactor/src/addr.rs:710-741 | `cmp` is the lexicographic order of proc uid, location hop by hop, actor uid and port, absent before present and singletons before instances |
| `AddrOrder.PrefixIsKeyPrefix` | hyperactor/src/addr.rs:682-692 | `is_prefix_of` is exactly the prefix relation on those parts |
| `AddrOrder.PrefixIsPartialOrder` | hyperactor/src/addr.rs:682-692 | `is_prefix_of` is reflexive, transitive, and antisymmetric up to address equality |
| `AddrOrder.PrefixIsLeast` | hyperactor/src/addr.rs:682-692 | An address is not above any of its extensions |
| `AddrOrder.ExtensionsAreAnInterval` | hyperactor/src/addr.rs:682-741 | Whatever lies between an address and one of its extensions is an extension too |
| `AddrOrder.ViasAreAList` | hyperactor/src/addr.rs:114-140 | `with_via`, `append_via` and `pop_via` push, append and pop the hop list and keep the channel |
| `AddrOrder.HopsDetermineLocation` | hyperactor/src/addr.rs:96-103 | A location is determined by its hops and its channel |
| `PrefixRouting.RouteIsLongest` | hyperactor/src/mailbox.rs:3569-3583 | A route that is found is the longest bound prefix of the destination |
| `PrefixRouting.RoutedIffNotShadowed` | hyperactor/src/mailbox.rs:3569-3583 | A destination is routed iff it has a bound prefix and no bound non-prefix lies between its prefixes and it |
| `PrefixRouting.ActorRoutedIff` | hyperactor/src/mailbox.rs:3553-3583 | An actor is routed iff it is bound, or its proc is bound and no actor of that proc with a smaller uid is |
| `PrefixRouting.ShadowedExample` | hyperactor/src/mailbox.rs:3553-3583 | A table whose longest matching prefix is bound and yet no route is found |
| `PrefixRouting.InsertGet` | hyperactor/src/mailbox.rs:3556-3560 | Binding gives the key its value and leaves every other key's value alone |
| `DialRouter.DialMailboxRouter.Bind` | hyperactor/src/mailbox.rs:3783-3796 | The book maps the key to the canonical dial address and every other address to what it was, and the sender of a replaced different address is evicted |
| `DialRouter.DialMailboxRouter.Unbind` | hyperactor/src/mailbox.rs:3798-3820 | The range scan unbinds exactly the extensions of the prefix, leaves every other binding, and evicts exactly the removed senders |
| `DialRouter.ExtensionsAreARun` | hyperactor/src/mailbox.rs:3804-3809 | The bound extensions of an address are one run of the ordered book, starting at the first address not below it |
| `DialRouter.DialMailboxRouter.LookupAddr` | hyperactor/src/mailbox.rs:3822-3841 | The actor's own binding, else its proc's when no smaller actor of the proc is bound, else the actor's own channel unless only remote ones are wanted; never an alias |
| `DialRouter.RemoteIff` | hyperactor/src/channel.rs:680-690 | An address is remote iff it, or the address an alias is served at, is Tcp or of the TLS family |
| `DialRouter.DialMailboxRouter.Prefixes` | hyperactor/src/mailbox.rs:3843-3858 | Exactly the bound addresses that no other bound address is a prefix of, in order |
| `ActorLocalStorage.Runtime.CloneSlot` | hyperactor/src/actor_local.rs:754-761 | A clone shares the slot iff the key had been initialised |
| `ActorLocalStorage.Runtime.DropSlot` | hyperactor/src/actor_local.rs:124-139 | Dropping a slot changes no other slot's values, and dropping the last holder of a key removes its values everywhere |
| `ActorLocalStorage.Runtime.GetEntry` | hyperactor/src/actor_local.rs:733-745 | `entry` is Occupied iff the actor has a value for the slot; initialising the key, at any unused address, changes no sharing and no value |
| `ActorLocalStorage.Runtime.Get` | hyperactor/src/actor_local.rs:820-832 | The value read has the slot's type: the downcast never fails |
| `ActorLocalStorage.Runtime.InsertVacant` | hyperactor/src/actor_local.rs:862-868 | The value appears for this actor under every sharing slot and nowhere else |
| `ActorLocalStorage.Runtime.InsertOccupied` | hyperactor/src/actor_local.rs:842-847 | The old value is returned with the slot's type and replaced for this actor's sharing slots only |
| `ActorLocalStorage.Runtime.AndModify` | hyperactor/src/actor_local.rs:799-806 | A present value is modified for this actor's sharing slots only; a vacant entry is untouched |
| `ActorLocalStorage.Runtime.OrInsert` | hyperactor/src/actor_local.rs:781-797 | A present value is kept, an absent one is stored for this actor's sharing slots only |
| `ActorLocalStorage.Runtime.Remove` | hyperactor/src/actor_local.rs:849-855 | The value is returned with the slot's type and disappears for this actor's sharing slots only |
| `ActorLocalStorage.CloneBeforeUse` | hyperactor/src/actor_local.rs:754-761 | A clone taken before first use stays separate: a value stored through the original is not seen through the clone |
| `ActorLocalRefinement.StorageIsSpec` | hyperactor/src/actor_local.rs:658-680 | At rest an actor's storage holds exactly the addresses of the live keys with a value in its map, with those values |
| `ActorLocalRefinement.StorageIsWritten` | hyperactor/src/actor_local.rs:658-680 | At rest an actor's storage holds exactly what the run's actions wrote and did not remove for keys that are still owned, at their addresses |
| `ActorLocalRefinement.DropMatches` | hyperactor/src/actor_local.rs:124-139 | A key's death in the weak map takes its address out of every storage, as dropping its last slot does |
| `ActorLocalRefinement.InsertMatches` | hyperactor/src/actor_local.rs:389-402 | An insertion in the weak map writes one address of one actor's storage, as the typed insertion does |
| `ActorLocalRefinement.RemoveMatches` | hyperactor/src/actor_local.rs:372-384 | A removal in the weak map clears one address of one actor's storage, as the typed removal does |

## Left out

- `WeakMapModel`: stored values are opaque integers whose destruction does not re-enter the map, Entries held by one thread are used and released innermost first, and lock poisoning by panics is not modelled.
- `WeakMapModel`: the two hash tables of each operation are values in one transition-system state rather than heap objects, because the subject is the interleaving of their locks.
- Relaxed memory: mutexes, `AtomicU8`, `AtomicWaker`, `Arc` and `Weak` are atomic primitives with their documented meaning.
- `CompletionSink.ChainMeaning`: all message types of a chain are one type, sinks act on a world value rather than heap cells, and a tracker's waiters are not modelled, only its counter.
- `Completion.ReachableInv`: a poll that panicked is final; catching the panic and polling again, which would meet a poisoned mutex, is not modelled.
- `ActorLocalStorage.Runtime.GetEntry`: a storage operation is one step here, since the weak-map model covers its interleavings and `ActorLocalRefinement` relates the two at rest; values are integers tagged with a type.
- `BlockOwnership.RustSymbols`: the regular expressions and the header parsers (`normalize_type`, `parse_impl_header`) are parameters, and what is proved holds for any of them.
- `CensusGate.Check`: the errors of transitions, matrix and totals are a parameter, and what is proved holds for any of them.
- `CensusGate.ValidateRows`: complaints about a row's category, provenance, multiplicity, oracle and behavior fields are a parameter, a function of the row.
- `ChannelUrlTheorems.RoundTripIff`: IP literals are given by an inverse pair of functions over hexadecimal digits, dots and colons, and Unix socket names by an arbitrary pair; DNS lookup and descriptor adoption end the parse with an outcome that names them.
- `AddrOrder.CmpAgreesWithEq`: names, channel addresses and ports are integers with their order; textual forms of ids and addresses are left out.
- `DialRouter.DialMailboxRouter.Bind`: the lock around the book and the concurrent sender cache are taken as one step; dialing itself is left out.
- `Accumulators.GCounterGet`: overflow is an explicit outcome; the wrapped value of a build without overflow checks is not modelled.
- `Reduction.SumTreeIsTotal`: sums are of u64; signed and floating-point sums are left out.
- Lifted `Option`, set-union, `Any` and `All` lattices: easy members of the same kind as `Max` and `Min`.
- Serialization, the reducer registry, transports, dialing, serving and async tasks: encode and decode are taken as identity, and the rest depends on I/O.
- Python syntax-tree scanning, stub and text scanning, and manifest loading: library calls.
- `ChannelAddr`'s `FromStr` and `Display` pair: the non-URL form, which has no alias syntax.
