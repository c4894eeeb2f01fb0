# Verified model of `cached`

`cached` memoizes functions. Its macros compile a function into a lookup, the body and a
store over a shared static, with optional locking, expiry and stale-on-error behaviour; its
stores keep the values. This project models the parts where interleavings, pointer surgery
or panics make correctness hard to see, and proves what they promise.

`dafny verify dfyconfig.toml` checks everything.

## The three models

**The emitted calls** (`CachedProtocol`, `OnceProtocol`, `ConcurrentProtocol`; what holds of
them in `CachedLocks`, `CachedHistory`, `OnceHistory`, `OnceLookups`, `OnceProgress`,
`ConcurrentHistory`, `ConcurrentErrors`). Each macro's output is a transition system. A call
is a thread with a program counter; the shared state is the store (or the `#[once]` cell),
the lock words, a clock for `#[once]`, and a log of what happened. A run is any finite sequence of actions: new calls, steps, bodies returning
any outcome, calls abandoned by a panic or a dropped future, calls unwound by a panicking
eviction callback right after their write, and the environment expiring or removing entries.
Numbers of calls, keys and buckets are unbounded and the hash is an arbitrary function. `Reachable(c, s)` says that some run leads to `s`; the theorems hold for
every reachable state and speak about its log.

A body's result is an `Outcome`: `Keep(v)` stands for `Ok(v)`, `Some(v)` or a plain `v`,
whose payload is stored, and `Skip(e)` for `Err(e)` or `None`, which is not. With
`cache_err` or `cache_none` the whole result is the payload.

**`LRUList`** (`Rings`, `LruList`, `LruModel`). A class over a vector of cells, with the
links written in the source's order, proved to act on an abstract list (`Slab`): the
occupied slots by recency, the vacant slots by reuse order, and the values. What holds after
any sequence of operations is proved about the abstract list, and `Replay` carries any such
sequence out on the class.

**`ExpiringCache`** (`ExpiringModel`, `ExpiringCache`, `ExpiringAccounts`,
`ExpiringRefinement`, `ExpiringOutcomes`, `ExpiringLife`). A class over a map and its counters, proved against
functions on a `Ledger` that also records every value inserted, evicted, notified, handed back or dropped.
Each operation takes the current instant; `is_expired` is any function of value and instant;
`f`, `keep` and the eviction callback may panic, and the cache goes on being used. A method
that carries out a whole life ties the theorems about every life to the class.

**The two together** (`StoreContract`, `ExpiringCalls`). The emitted calls of
`#[cached(expires = true)]` over an `ExpiringCache` with a clock, with users removing,
sweeping, clearing and reading it at any time. Every run of this system is shown to be a run
of the protocol over an abstract store, so the protocol's theorems hold of it.

`TokenWalk` is the worklist search for a generic parameter in `#[once]`'s value type.

## What is false, and exactly when it holds

`#[cached(result_fallback)]` never lets a failing body change the stored value
(`CachedHistory.FailuresNeverRegress`). `#[concurrent_cached(result_fallback)]` falls back to
a snapshot taken before the body, and there the law fails: `StaleOverwriteHappens` is a run in
which an older value is put back over a newer one, as `src/lib.rs:1983-1985` says can happen.
`RegressesOnlyByRace` states exactly which runs keep the law: those in which, between the
snapshot and the write of every put-back, the last event at the key was not a removal or a
write of another value. `OneAtATimeNeverRegresses` gives a condition on the schedule that a
user can enforce: calls for the key run one at a time, and the key is not removed while one
runs. Neither part can go: the run above has two calls in flight, and in
`RemovalUndoneHappens` a single failing call puts back what was removed under it.

`LRUList::move_to_front`, `remove` and `set` do not check their index. Their contracts cover
every index and say exactly for which the cells still represent a list afterwards.

`#[once(sync_writes = true)]` runs at most one successful body only if no call is lost between
its body and its store, where the value is cloned by user code: `OneSuccessfulRun` says that
such a loss is the only way, and `SecondRunHappens` that it is one.

A `#[concurrent_cached(result_fallback)]` call can return an error although a value for its
key is stored (`ErrsDespiteSuccess`); `ErrsIff` says exactly when a call errs.

## Model

| member | source | states |
|---|---|---|
| CachedLocks.NextKeepsLocks | cached_proc_macro/src/cached.rs:1047-1067 | every action keeps the lock words equal to what the calls' guard scopes hold: one writer or readers, one owner per bucket |
| CachedLocks.BodiesExclude | cached_proc_macro/src/cached.rs:1114-1197 | bodies of ordinary calls never overlap: under by_key when their keys share a bucket, under default at all; nor does a prime's store for that bucket fall into a by_key body |
| CachedLocks.BodiesMayOverlap | src/lib.rs:1128-1132 | and no more is excluded: bodies for keys the hash puts into different buckets overlap in some run, and with sync_writes unset bodies for any keys |
| CachedLocks.LookupsMayOverlap | cached_proc_macro/src/cached.rs:1069-1083 | with unsync_reads two lookups hold the lock at once in some run |
| CachedLocks.SomeoneCanMove | cached_proc_macro/src/cached.rs:1094-1132 | deadlock freedom: while any ordinary, prime or inspecting call is unfinished, some call can take a step |
| CachedLocks.SchedulesAreShort | cached_proc_macro/src/cached.rs:1114-1290 | every schedule of steps of existing calls is bounded by a rank of the state |
| CachedLocks.EveryCallFinishes | cached_proc_macro/src/cached.rs:1316-1328 | whatever the scheduler does, when no call can move, all calls have finished and every lock is free, after boundedly many steps |
| CachedHistory.NextKeepsHistory | cached_proc_macro/src/cached.rs:1114-1290 | every action keeps the invariant that ties store, threads and log together |
| CachedHistory.OthersAreElsewhere | cached_proc_macro/src/helpers.rs:324-342 | while one call stores, no other call that relies on the same key being absent is between its lookup and its store |
| CachedHistory.EachCallAnswersOnce | cached_proc_macro/src/cached.rs:1114-1290 | a call that runs to its end returns exactly once, an abandoned one never |
| CachedHistory.AnswersExplained | cached_proc_macro/src/cached.rs:1069-1112 | a cached answer is the live, last computed value and never goes to a forced call or a prime; any other is the call's own body's outcome or, on a failure under result_fallback, the last computed value |
| CachedHistory.LookupsServeTheLive | cached_proc_macro/src/cached.rs:1069-1112 | in every mode an unforced lookup that does not answer has found no live entry, and every body run of an ordinary call has its own lookup before it |
| CachedHistory.AnswersAreStored | cached_proc_macro/src/cached.rs:819-859 | in every mode and for every kind of call, an answer not found cached that carries a value follows the store of that value by that call |
| CachedHistory.SingleFlight | cached_proc_macro/src/cached.rs:1114-1132 | under by_key and default an unforced store finds no live entry at its key, so such stores for a key number at most one more than the times the key left the store |
| CachedHistory.Provenance | cached_proc_macro/src/cached.rs:819-859 | everything stored or returned for a key, in every mode, was produced by an earlier completed body run for that key |
| CachedHistory.MemoizationIsTransparent | cached_proc_macro/src/cached.rs:1114-1290 | if the body is a function of the key, every call returns its value and the store holds only its payloads, under every interleaving, eviction and expiry |
| CachedHistory.FailuresNeverRegress | cached_proc_macro/src/cached.rs:1260-1278 | at any moment the value at a key is the last one computed for it and not removed, live unless expired since; putting a stale value back never changes it |
| CachedHistory.NoErrorAfterSuccess | cached_proc_macro/src/cached.rs:1198-1278 | under result_fallback, after a value is stored and until the key is removed, no ordinary call for it returns an error |
| StoreContract.LookUpMeans | cached_proc_macro/src/cached.rs:1085-1092 | on an ExpiringCache the lookup hits exactly on a live entry for an unforced call, and at most removes an expired entry at its key |
| StoreContract.SetIsWrite | src/stores/expiring.rs:478-503 | cache_set writes exactly its key, even if the eviction callback panics |
| StoreContract.FinalSectionIsCommit | cached_proc_macro/src/cached.rs:1261-1277 | peek, fall back and set on an ExpiringCache settle on the protocol's result and leave its store, except that a value stored expired is expired from the start; it is written even if the callback panics |
| StoreContract.LookUpPanics | src/stores/expiring.rs:365-376 | a lookup section is unwound exactly if the eviction callback panics in it |
| StoreContract.FinalSectionPanics | src/stores/expiring.rs:478-503 | a final section is unwound exactly if the eviction callback panics in it |
| ExpiringCalls.TickSim | src/stores/expiring.rs:711-717 | passing time acts on the map as a sequence of the protocol's expiry steps |
| ExpiringCalls.LookSim | src/stores/expiring.rs:347-382 | a lookup on the cache, with the removal of an expired entry and a panicking callback, is a removal and a step or an abandonment of the protocol |
| ExpiringCalls.FinishSim | src/stores/expiring.rs:478-503 | a final section on the cache, with a panicking callback, is a commit of the protocol, or a write without an answer, up to one expiry |
| ExpiringCalls.CacheRefinesProtocol | cached_proc_macro/src/cached.rs:1114-1290 | every run of the emitted calls over an ExpiringCache, its clock, its maintenance and its panics is a run of the protocol, with the same calls, locks and log and the map as its store |
| ExpiringCalls.LookupServesTheLive | src/stores/expiring.rs:347-382 | in every mode an unforced call whose key holds a live value at the instant it looks returns that value, and no other lookup returns |
| ExpiringCalls.AnswersAreStored | src/stores/expiring.rs:478-503 | in every such run an answer not found cached that carries a value follows the store of that value |
| ExpiringCalls.UnwoundCallsDoNotReturn | src/stores/expiring.rs:486-496 | a step ends a call without an answer exactly if the eviction callback panics in it |
| ExpiringCalls.StoresFindNothingLive | cached_proc_macro/src/cached.rs:1114-1197 | in every such run, under by_key and default, an unforced call that runs its body or is about to store finds no live value at its key in the map |
| ExpiringCalls.SomeoneCanMove | cached_proc_macro/src/cached.rs:1094-1132 | deadlock freedom of the combined system |
| ExpiringCalls.MoveDropsRank | cached_proc_macro/src/cached.rs:1114-1290 | every move of a call in the combined system lowers the rank, so schedules of moves are bounded |
| ExpiringCalls.FailuresNeverRegress | cached_proc_macro/src/cached.rs:1260-1278 | in every such run the map holds at every key the last value computed for it and not removed |
| ExpiringCalls.NoErrorAfterSuccess | src/stores/expiring.rs:718-755 | in every such run, under result_fallback, after a value is stored and until its key leaves the map, no ordinary call for it returns an error, although the value expires |
| ExpiringCalls.MemoizationIsTransparent | cached_proc_macro/src/cached.rs:1114-1290 | in every such run, if the body is a function of the key, every call returns its value and the map holds only its payloads |
| OnceHistory.NextKeeps | cached_proc_macro/src/once.rs:854-937 | every action keeps the invariant that ties cell, clock, locks and log together |
| OnceHistory.EachCallAnswersOnce | cached_proc_macro/src/once.rs:877-937 | a call that runs to its end returns exactly once, an abandoned one never |
| OnceLookups.LookupsServeTheFresh | cached_proc_macro/src/helpers.rs:782-804 | with and without sync_writes an unforced lookup that does not answer has found no value, or one expired at the call's entry; every body run of an ordinary call has its own lookup before it |
| OnceLookups.AnswersExplained | cached_proc_macro/src/once.rs:877-937 | a cached answer is the value written last, fresh at the call's entry, for an unforced call; any other is the call's own body's outcome |
| OnceLookups.AnswersAreStored | cached_proc_macro/src/once.rs:652-739 | in every configuration and for every kind of call, an answer not found cached that carries a value follows the store of that value, stamped with the instant of the store |
| OnceLookups.InstantsAreTheClock | cached_proc_macro/src/once.rs:962-966 | a call judges expiry by what the clock showed when it entered; a stamp is what the clock showed at the store |
| OnceLookups.CellIsLastWritten | cached_proc_macro/src/once.rs:620-630 | the cell always holds the value and stamp written last |
| OnceProgress.BodiesExclude | cached_proc_macro/src/once.rs:917-928 | with sync_writes bodies of ordinary calls never overlap with each other, a lookup or a store |
| OnceProgress.BodiesMayOverlap | cached_proc_macro/src/once.rs:930-935 | without it two bodies overlap in some run, and two optimistic reads always may |
| OnceProgress.SomeoneCanMove | cached_proc_macro/src/once.rs:877-929 | deadlock freedom: while a call is unfinished, some call can take a step or is in its body, because a reader gives up the read lock before it asks for the write lock |
| OnceProgress.SchedulesAreShort | cached_proc_macro/src/once.rs:854-937 | every schedule of steps of existing calls is bounded by a rank of the state |
| OnceProgress.EveryCallFinishes | cached_proc_macro/src/once.rs:854-937 | whatever the scheduler does, when no call can move, all calls have finished and the lock is free, after boundedly many steps |
| OnceHistory.TtlSpacing | cached_proc_macro/src/once.rs:877-929 | with sync_writes and a TTL, a store by an unforced call is stamped at least the TTL after every earlier store, primes' and forced calls' included |
| OnceHistory.CachedAnswersAreYoung | cached_proc_macro/src/helpers.rs:782-804 | a cached answer is the value written last before it, younger than the TTL at the caller's own entry instant, also when the write came after that instant |
| OnceHistory.WriteOnce | cached_proc_macro/src/once.rs:917-928 | with sync_writes and no expiry an unforced call never stores after any other store |
| OnceHistory.LaterCallsReturnIt | cached_proc_macro/src/once.rs:907-928 | every unforced call answering after a store returns the value stored last |
| OnceHistory.OneSuccessfulRun | cached_proc_macro/src/once.rs:917-928 | double-checked locking: once an unforced body has succeeded, no unforced body completes again unless the first call was abandoned at its store, before it stored |
| OnceHistory.SecondRunHappens | cached_proc_macro/src/once.rs:652-739 | a reachable run in which a call is abandoned at its store and a second unforced body succeeds |
| OnceHistory.Provenance | cached_proc_macro/src/once.rs:652-739 | every answer is the outcome of a body run that completed earlier |
| OnceHistory.MemoizationIsTransparent | cached_proc_macro/src/once.rs:652-739 | a constant body is returned by every call and is all the cell ever holds |
| ConcurrentHistory.NextKeeps | cached_proc_macro/src/concurrent_cached.rs:1242-1283 | every action keeps the invariant that ties store, snapshots and log together |
| ConcurrentHistory.EachCallAnswersOnce | cached_proc_macro/src/concurrent_cached.rs:1242-1283 | a call that runs to its end returns exactly once, an abandoned one never |
| ConcurrentHistory.AnswersExplained | cached_proc_macro/src/concurrent_cached.rs:1358-1372 | a cached answer is the live value at the key and never goes to a forced call; any other is the call's own body's outcome or its own snapshot, just put back |
| ConcurrentHistory.LookupsServeTheLive | cached_proc_macro/src/concurrent_cached.rs:1358-1372 | an unforced lookup that does not answer has found no live entry, with and without result_fallback, and every body run has its own lookup before it |
| ConcurrentHistory.AnswersAreStored | cached_proc_macro/src/concurrent_cached.rs:1080-1136 | an answer not found cached that carries a value follows the store of that value by that call |
| ConcurrentHistory.StoreIsLastWritten | cached_proc_macro/src/concurrent_cached.rs:1242-1283 | the store always holds what was last written and not removed, live unless expired since |
| ConcurrentErrors.OwnStages | cached_proc_macro/src/concurrent_cached.rs:1242-1283 | a call that answers from its body has looked exactly once and run its body exactly once, and answers what these two determine |
| ConcurrentErrors.ErrsIff | cached_proc_macro/src/concurrent_cached.rs:1242-1266 | a call that misses returns an error if and only if its body failed and, for an ordinary call under result_fallback, its key held nothing when that call looked |
| ConcurrentErrors.ErrsDespiteSuccess | src/lib.rs:1983-1985 | a reachable state in which a call has returned an error although a value for its key was stored while it ran and is still there |
| ConcurrentHistory.Provenance | cached_proc_macro/src/concurrent_cached.rs:1217-1266 | despite the race, everything stored or returned for a key was produced by an earlier completed body run for it |
| ConcurrentHistory.MemoizationIsTransparent | src/lib.rs:2844-2891 | get, compute, set without a lock still returns the body's value for a body that is a function of the key |
| ConcurrentHistory.StaleOverwriteHappens | src/lib.rs:1983-1985 | a reachable state in which an older value has been put back over a newer one |
| ConcurrentHistory.RegressesOnlyByRace | cached_proc_macro/src/concurrent_cached.rs:1242-1266 | a key always holds its last computed value if and only if no put-back was disturbed between its snapshot and its write |
| ConcurrentHistory.OneAtATimeNeverRegresses | cached_proc_macro/src/concurrent_cached.rs:1242-1266 | if calls for a key run one at a time and it is not removed under one, the key always holds its last computed value |
| ConcurrentHistory.RemovalUndoneHappens | cached_proc_macro/src/concurrent_cached.rs:1242-1266 | a reachable state in which a failing call has put back a value removed while it ran |
| Rings.UnlinkRing | src/lru_list.rs:66-71 | unlinking any cell closes its ring in both directions and touches nothing outside it |
| Rings.LinkRing | src/lru_list.rs:73-79 | linking a foreign cell after the sentinel makes it the head in both directions and touches nothing outside the ring |
| LruList.PromotedMeans | src/lru_list.rs:81-84 | promotion moves an occupied slot to the head, head and sole entry included |
| LruList.Unsound | src/lru_list.rs:14-16 | cells in which an occupied slot is empty, or another cell filled, represent no list |
| LruList.PromotedAstray | src/lru_list.rs:81-84 | promoting a vacant slot moves it, valueless, to the head of the occupied ring and keeps both rings closed and disjoint |
| LruList.PromotedSentinel | src/lru_list.rs:81-84 | promoting a sentinel leaves the representation of a list if and only if it heads an empty occupied ring, and then changes nothing |
| LruList.PushedMeans | src/lru_list.rs:86-100 | a push fills the next slot and puts it at the head |
| LruList.Grow | src/lru_list.rs:87-98 | the half-linked state after growing is repaired in both directions by the following unlink |
| LruList.VacatedMeans | src/lru_list.rs:102-106 | removal deletes the slot from the order and makes it next for reuse |
| LruList.RevacatedMeans | src/lru_list.rs:102-106 | removal of a vacant slot, which panics, leaves both rings sound |
| LruList.VacatedSentinel | src/lru_list.rs:102-106 | removing a sentinel leaves the representation of a list if and only if it heads an empty free ring, and then changes nothing |
| LruList.LRUList.constructor | src/lru_list.rs:21-35 | a new list is empty and sound |
| LruList.LRUList.Unlink | src/lru_list.rs:66-71 | the cells become `Unlinked` of the old cells |
| LruList.LRUList.LinkAfter | src/lru_list.rs:73-79 | the cells become `LinkedAfter` of the old cells |
| LruList.LRUList.MoveToFront | src/lru_list.rs:81-84 | acts on the abstract list as move-to-head, for every index: out of range it panics and changes nothing; a vacant slot becomes the head without a value; the cells still represent a list exactly for an occupied slot or the sentinel of an empty list |
| LruList.LRUList.PushFront | src/lru_list.rs:86-100 | acts as prepend and returns the slot used |
| LruList.LRUList.Remove | src/lru_list.rs:102-106 | acts as deletion and returns the value; any other index panics: a vacant slot becomes the next to be reused and nothing else changes, an index out of range changes nothing, a sentinel leaves the representation of a list exactly if it heads an empty free ring |
| LruList.LRUList.Back | src/lru_list.rs:108-110 | the last slot of the order, or the sentinel |
| LruList.LRUList.Get | src/lru_list.rs:112-114 | the value of an occupied slot; panics otherwise |
| LruList.LRUList.Set | src/lru_list.rs:120-122 | replaces the value in place and returns the old one; fills a vacant slot or a sentinel without linking it, which represents no list; out of range panics and changes nothing |
| LruList.LRUList.Clear | src/lru_list.rs:124-136 | an empty, sound list |
| LruList.LRUList.DrainInto | src/lru_list.rs:145-156 | appends the values in list order and leaves an empty, sound list |
| LruList.LRUList.DrainWalk | src/lru_list.rs:146-153 | the walk terminates with exactly the occupied values although passed cells are vacant and linked |
| LruList.IndexIterator.Next | src/lru_list.rs:213-221 | yields the slots in list order, then stays exhausted |
| LruList.ValueIterator.Next | src/lru_list.rs:190-199 | yields the values in list order, then stays exhausted |
| LruList.CollectIndices | src/lru_list.rs:173-178 | iterating slots terminates with exactly the list order |
| LruList.CollectValues | src/lru_list.rs:158-163 | iterating values terminates with the values of those slots, one for one |
| LruList.Sweep | src/lru_list.rs:165-178 | removing collected slots one by one never meets a vacant slot, returns their values, and leaves the others in place and in order |
| LruList.Replay | src/lru_list.rs:66-136 | any sequence of operations on a new list leaves what the abstract run says, a vector of two cells more than the peak number of entries, and a back that was touched least recently |
| LruList.ReplayGet | src/lru_list.rs:112-122 | after any sequence of operations, reading a slot gives the value it was last given by a push or a set, or panics if it has none |
| LruModel.ApplyWellFormed | src/lru_list.rs:14-16 | every operation keeps the slots partitioned into occupied and vacant, numbered without gaps, values exactly on the occupied ones |
| LruModel.Recency | src/lru_list.rs:81-110 | after every run the list is strictly ordered by time of last push or move |
| LruModel.BackIsLeastRecent | src/lru_list.rs:108-110 | the back of the list was touched strictly before every other entry |
| LruModel.ReuseOrder | src/lru_list.rs:102-106 | after every run the vacant slots are ordered by time of removal, latest first |
| LruModel.PushReusesLastFreed | src/lru_list.rs:86-99 | if a slot is vacant a push reuses the one freed last |
| LruModel.SlabBound | src/lru_list.rs:86-93 | the number of slots equals the peak number of live entries since the last clear or drain |
| LruModel.ValuesAreLastGiven | src/lru_list.rs:86-122 | after every run the occupied slots are those given a value and not freed since, and each holds the value last given to it |
| LruModel.SweepBySlots | src/lru_list.rs:165-178 | any duplicate-free choice of occupied slots, removed in any order, leaves exactly the others, in order, with their values |
| TokenWalk.FindParam | cached_proc_macro/src/once.rs:522-550 | the worklist terminates and reports a parameter exactly when one occurs as an identifier at some depth, and reports such a one |
| TokenWalk.NamesFirstOrRest | cached_proc_macro/src/once.rs:533-547 | occurrence at some path decomposes into first token, nested group, or rest |
| ExpiringCache.Decide | src/stores/mod.rs:423-424 | the selection pass records a decision per entry in iteration order, or panics |
| ExpiringCache.Extract | src/stores/mod.rs:428-431 | the removal pass takes exactly the flagged entries |
| ExpiringCache.TakeDoomed | src/stores/mod.rs:417-432 | removes and returns exactly the selected entries; a panicking predicate leaves the map as it was |
| ExpiringCache.ExpiringCache.constructor | src/stores/expiring.rs:211-228 | an empty cache with balanced books |
| ExpiringCache.ExpiringCache.OnEvict | src/stores/expiring.rs:286-290 | the callback is only ever invoked with balanced books, for an entry that was stored when the operation began, has been evicted and counted since and was not yet told of, and whose slot is empty or holds the one entry inserted since |
| ExpiringCache.ExpiringCache.EvictEntry | src/stores/expiring.rs:514-525 | one entry is removed, counted, then told of |
| ExpiringCache.ExpiringCache.ReplaceEntry | src/stores/expiring.rs:433-437 | an expired entry is replaced, counted, then told of |
| ExpiringCache.ExpiringCache.Get | src/stores/expiring.rs:347-382 | the lookup of the ledger model |
| ExpiringCache.ExpiringCache.GetMut | src/stores/expiring.rs:384-412 | the same with the slot left as the caller leaves it |
| ExpiringCache.ExpiringCache.GetOrSet | src/stores/expiring.rs:414-476 | both get-or-set forms, with the caller's write through the reference it gets, if it gets one |
| ExpiringCache.ExpiringCache.Fetch | src/stores/expiring.rs:414-476 | the same up to the return; nothing is replaced or counted unless `f` returned a value |
| ExpiringCache.ExpiringCache.Set | src/stores/expiring.rs:478-503 | the insertion of the ledger model |
| ExpiringCache.ExpiringCache.Remove | src/stores/expiring.rs:509-527 | removal, answering by expiry at the moment of removal |
| ExpiringCache.ExpiringCache.RemoveEntry | src/stores/expiring.rs:531-547 | removal, answering regardless of expiry |
| ExpiringCache.ExpiringCache.NotifyEvicted | src/stores/expiring.rs:281-292 | a batch already out of the store is counted as a whole, then told of entry by entry |
| ExpiringCache.ExpiringCache.TellAll | src/stores/expiring.rs:286-290 | notification stops at the first panic |
| ExpiringCache.ExpiringCache.Retain | src/stores/expiring.rs:330-335 | the sweep of the ledger model |
| ExpiringCache.ExpiringCache.Evict | src/stores/expiring.rs:257-264 | the sweep that keeps every live entry |
| ExpiringCache.ExpiringCache.ClearWithOnEvict | src/stores/expiring.rs:301-312 | the sweep that keeps nothing |
| ExpiringCache.ExpiringCache.Clear | src/stores/expiring.rs:549-551 | entries are dropped silently and booked as dropped |
| ExpiringCache.ExpiringCache.ResetMetrics | src/stores/expiring.rs:577-581 | the counters restart, the books go on |
| ExpiringCache.ExpiringCache.Reset | src/stores/expiring.rs:553-559 | both of these |
| ExpiringCache.ExpiringCache.Peek | src/stores/expiring.rs:609-621 | the live value at a key, with no effect |
| ExpiringCache.ExpiringCache.Contains | src/stores/expiring.rs:587-593 | whether a key is live, with no effect |
| ExpiringCache.ExpiringCache.Iter | src/stores/expiring.rs:597-605 | exactly the live entries, whatever the iteration order |
| ExpiringCache.ExpiringCache.GetStatus | src/stores/expiring.rs:718-736 | value and expiry status, nothing removed |
| ExpiringCache.ExpiringCache.PeekStatus | src/stores/expiring.rs:743-755 | the same with no effect |
| ExpiringAccounts.ApplyBalances | src/stores/expiring.rs:257-559 | every operation, panicking or not, keeps the books balanced entry by entry |
| ExpiringAccounts.Conservation | src/stores/expiring.rs:257-559 | in every life, as multisets of entries, inserted plus rewritten-to = stored + evicted + handed back + dropped + rewritten-from, hence the same of the counts, and a callback that never panics is called once per counted eviction, in order |
| ExpiringAccounts.EveryEntryAccounted | src/stores/expiring.rs:257-559 | whatever an operation evicts was stored and has left its slot, each entry once; whatever left the map was evicted and counted, unless by a clear; all else is unchanged |
| ExpiringAccounts.PanicSafety | src/stores/expiring.rs:414-547 | a panic in `f` or `keep` leaves entries and books untouched; when the callback panics, every entry it was told of was stored, is out of its slot and is counted, and so is every other entry removed |
| ExpiringAccounts.MetricsAreExact | src/stores/expiring.rs:565-581 | in every life hits, misses and evictions count exactly the live lookups, the other metered lookups and the evictions since the last reset |
| ExpiringAccounts.DoomedIffJudged | src/stores/expiring.rs:330-335 | a sweep selects exactly the expired entries and those `keep` rejects |
| ExpiringAccounts.SweepIsExact | src/stores/expiring.rs:330-335 | a sweep leaves exactly the entries judged to stay, values unchanged, even if the callback panics |
| ExpiringAccounts.SweepCounts | src/stores/expiring.rs:325-335 | the count returned and the evictions recorded equal the number of entries that disappeared |
| ExpiringAccounts.EvictLeavesTheLive | src/stores/expiring.rs:251-264 | after evict the map holds exactly its live entries |
| ExpiringAccounts.LookupClearsExpired | src/stores/expiring.rs:365-376 | a lookup keeps its key exactly if the entry is live |
| ExpiringOutcomes.LookupOutcome | src/stores/expiring.rs:347-412 | answer, map and books after a lookup, by whether the key was absent, live or stale |
| ExpiringOutcomes.RemovalOutcome | src/stores/expiring.rs:505-547 | a removal evicts the entry, stale or live; cache_remove answers only a live value, cache_remove_entry answers an entry exactly if it was evicted, regardless of expiry |
| ExpiringOutcomes.SetOutcome | src/stores/expiring.rs:478-503 | the value is in the map; a stale one it replaces is evicted and not returned, a live one is handed back and not evicted |
| ExpiringOutcomes.FetchOutcome | src/stores/expiring.rs:414-476 | a get-or-set that finds a live value, or whose `f` fails or panics, changes no entry and no book; else the value is put in and a stale one evicted |
| ExpiringOutcomes.FetchThenOutcome | src/stores/expiring.rs:414-476 | the caller's write changes its slot only, and happens exactly if a reference was returned |
| ExpiringOutcomes.RetainOutcome | src/stores/expiring.rs:314-335 | exactly the live entries `keep` keeps stay; the answer and the evictions count the others |
| ExpiringOutcomes.EvictOutcome | src/stores/expiring.rs:251-264 | exactly the stale entries go; the answer and the evictions count them |
| ExpiringOutcomes.ClearWithOutcome | src/stores/expiring.rs:294-312 | every entry, stale or live, is evicted and the map is empty |
| ExpiringOutcomes.ClearOutcome | src/stores/expiring.rs:549-581 | clear and reset empty the map without evicting; the resets, and only they, restart the counters |
| ExpiringOutcomes.ReadOutcome | src/stores/expiring.rs:607-621 | reads change no entry and no book; a status read shows the stored value, stale or live, and says which |
| ExpiringOutcomes.PanicsExactly | src/stores/expiring.rs:266-292 | an operation panics exactly if the closure it was given panics or the eviction callback does |
| ExpiringRefinement.StepMatches | src/stores/expiring.rs:347-622 | one operation on caches with the same live entries leaves the same live entries, and answers a live reader alike unless the callback panicked in it; a panic of `f` or `keep` must match |
| ExpiringRefinement.LazyRefinesEager | src/stores/expiring.rs:22-33 | in every life, wherever sweeps occur and whatever panicked, the live entries are those of a cache that drops each entry the moment it expires, and every operation answers a live reader as that cache does unless the callback panicked in that very operation |
| ExpiringLife.Perform | src/stores/expiring.rs:257-755 | every method does to the object what its operation does in the model |
| ExpiringLife.LiveThrough | src/stores/expiring.rs:257-755 | a new cache carried through any life has exact counters and conserved entries and answers a live reader as the eager cache does |

## Modelling decisions

- A lock word changes when a guard's scope begins or ends; a call waits until every lock its
  next scope needs is free. Reader or writer preference is not modelled.
- `Abandon` releases a call's locks at any point, the final store included, where a `clone`
  may panic. `Unwind` is a write whose eviction callback panics: the value is stored, the call does not return.
- `force_refresh` is a Boolean of the call. A forced call never looks up.
- An inspector is a user holding the static's lock. It may remove entries, which is the
  environment's `Evict`, but inserts nothing.
- A value that is already expired when stored is stored live and then expired by the
  environment.
- `is_expired` is asked once per entry and operation, at one instant per operation, and does
  not panic. Laziness is compared with eagerness for values that stay expired once expired.
- The iteration order of the map is a parameter of each sweep and each iteration.
- A caller's write through a mutable reference is part of the operation that gave it out, and
  does not happen if that operation unwinds.
- `#[cached(expires = true)]` cannot be combined with `unsync_reads`, since `ExpiringCache`
  has no shared read; the combined system does not need that restriction. Users' maintenance
  is allowed at any moment, whether or not a call holds the lock.

## Left out

- Attribute parsing, diagnostics, visibility and signature handling in the macros: independent one-branch checks.
- `with_cached_flag`: the was-cached flag on a returned value.
- Redis and redb stores and their errors; the concurrent store is infallible here.
- `LruCache`, `TtlCache`, `LruTtlCache`, `TtlSortedCache`, `ExpiringLruCache`, the sharded stores: the protocols use an abstract store whose entries the environment expires and removes.
- Allocation: `with_capacity`, `try_with_capacity`, `shrink_to`, capacity hints.
- `LRUList::get_mut`: `Get` followed by `Set`.
- Recursive and re-entrant bodies, which the documentation excludes for by_key.
- Inserting into a cache through its static from outside.
- Memory ordering of the atomic counters, 64-bit overflow of counters, hashing.
- Async get-or-set of `ExpiringCache`: the same bodies with an await around `f`.
