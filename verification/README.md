# A verified model of rsc-cache

rsc-cache keeps the results of functions in a shared storage: it derives a key from the arguments, refreshes
entries under a protocol that many processes take part in, and invalidates them by tag. This project states
what its components do as Dafny programs and proves what they are for. Times are milliseconds as integers,
characters are UTF-16 code units, and an exception is an `Err`.

- **The refresh protocol** (`Refresh*.dfy`): any number of processes read, lock, compute, check tombstones,
  compare-and-set and release one key, while invalidations, removals, lost locks and the clock interleave. Every
  `await` ends a step. The theorems are about every run: how revisions count, what a successful write has seen,
  what strict invalidation excludes, when two processes compute at once, which actions put what into the cache and
  take it out again (`RefreshOrigins.dfy`, `RefreshRemovals.dfy`), and what a caller is given by the age of what it
  finds (`RefreshAges.dfy`). `RefreshCalls.dfy` has the code of one call, with its polling loop and its `finally`,
  and shows that whatever happens at its awaits, its execution is such a run.
- **The storages**: the in-memory storage is a class whose methods equal functions of its contents
  (`Memory.dfy`, `MemoryShelf.dfy`); those functions keep the tag index exact and both budgets
  (`MemoryInvariants.dfy`), answer like a plain map in every run (`MemoryRuns.dfy`) and list records by last use
  (`MemoryOrder.dfy`). The Redis adapter is a class of command sequences (`Redis.dfy`, `RedisModel.dfy`) with its
  script and its step-by-step path compared, its memberships followed through every run (`RedisProofs.dfy`), and a
  plain map that it answers like in every run (`RedisMaps.dfy`).
- **Request coalescing** (`SingleFlights.dfy`, `SingleFlightProofs.dfy`) and **the fallback tag index**
  (`TagIndexes.dfy`, `TagIndexRuns.dfy`): classes for the code, runs of interleaved steps for the guarantees.
- **Canonical arguments** (`Canonical*.dfy`, `ObjectGraphs.dfy`, `ArgumentGraphs.dfy`, `ArgumentTrees.dfy`): the
  walk with its stack computes the text of the tree an object graph stands for, and two texts are equal exactly
  when the trees are structurally equal.
- **The serializer** (`Serializer*.dfy`): decoding gives back the value in its normal form, property order never
  shows, and a graph is accepted exactly when it is a tree of supported values.
- **Envelopes, base64, SHA-256 and keys** (`Codec.dfy`, `Base64.dfy`, `Sha256*.dfy`, `Keys.dfy`, `KeyProofs.dfy`).
  The base64 methods run on the source's 32-bit words and equal section 4 of RFC 4648; the hash methods equal
  FIPS 180-4, sections 5.1.1 and 6.2.2, whose functions and constants have laws of their own (`Sha256Laws.dfy`) and
  give the published digest of "abc" (`Sha256Example.dfy`).

`Wrappers`, `Lists`, `Strings`, `Decimal`, `Sorting`, `JsValues` and `Entries` hold what several components use.

Where the code does less than its documentation says, the code is modelled and a lemma shows the difference:

- Revisions restart at 1 once a key is gone, so an old observation can match again: a success is a lost update
  exactly when the key was removed since it was read (`NoLostUpdate`, `RevisionsRestart`). The fallback tag index
  loses a key in the same way, and without a compare-and-set to any change since the read (`LossIff`,
  `RestartedRevisionLosesKey`).
- Tombstones protect a strict function exactly when it reads them where invalidations write them
  (`ProtectedIffFinds`, `ElsewhereIsNotProtected`). Invalidations use the default key limit and no version, so the
  namespace invalidated must be the function's own, its version must have the token of no version, and its key
  limit must leave 45 characters behind prefix and namespace (`ProtectedIff`, `TombstoneKeysMeetIff`); a limit of 60
  hides all tombstones of the namespace `default` (`ShortLimitHidesTombstones`). Overlapping invalidations can
  store the older time last (`OverlapLetsStaleDataThrough`; `LetsThroughIff` gives the condition), and because
  entries are deleted before the tombstone is stored, a write that checked in between survives
  (`CheckedTooEarly`, `CheckedBeforeStored`).
- A lock is leaked when the re-read under it throws, which takes locks and fail-closed reads (`FailClosedLeaks`,
  `LeaksIff`).
- A caller joins a computation that has been aborted exactly when all its waiting callers had left it
  (`LateCallerJoinsAborted`, `JoinsAbortedIff`).
- The comment on top of src/tag-index.ts says that a lost membership costs a miss at worst. An entry registered
  while its tag is invalidated outlives the invalidation unlisted, and the next one does not find it
  (`AddedMeanwhileIsOrphaned`; `OrphanedIff` gives the condition).
- A property name that continues another one with `=` and the opening of a string, and addresses with delimiters,
  let different arguments share a key (`NameCollision`, `UrlCollision`).
- A tag whose set of keys is full loses its oldest key, and invalidation then spares that record
  (`InvalidationSparesDropped`, `DroppedKeyIsSpared`).
- The Redis script and the step-by-step path differ on foreign values, on undecodable ones and on a TTL below a
  millisecond (`SameWriteIff`). Deleting a single key, or the expiry of its reverse set, leaves its tag memberships
  behind (`DeletionLeavesMemberships`); `InvalidationIsExact` says which entries invalidation then removes.
- Below a key length limit that leaves room for the namespace, clearing a namespace misses its keys (`ClearedIff`);
  within a certain range of limits it takes those of another (`ClearedByOtherIff`).
- The binary decoder compares two of the four magic bytes (`HeaderBytesIgnored`).

## Model

| member | source | states |
|---|---|---|
| `RefreshRevisions.RevisionsCount` | src/runtime.ts:564-617 | in every run the commits of one incarnation of the key carry the revisions 1, 2, 3, ... in order, no revision has two writers, and the stored entry is the newest commit of its incarnation |
| `RefreshRevisions.NoLostUpdate` | src/runtime.ts:593-641 | in every run a compare-and-set succeeds exactly when the stored revision (or absence) is the observed one; the success misses commits made since the read exactly when the key was removed in between, unless the read had failed or its payload was dropped; such a write succeeds only on an absent key, removed since the read; a failure changes neither store nor history |
| `RefreshRevisions.RevisionsRestart` | src/runtime.ts:568 | a run in which a commit lands over one its writer never saw, because the key was removed and its revisions restarted |
| `RefreshRevisions.StepKeeps` | src/runtime.ts:1177-1259 | every step of every process and of the environment keeps the log counting, nothing missed, the stored entry the last commit, and what each process remembers exact |
| `RefreshStrict.StrictInvalidation` | src/runtime.ts:501-530 | in every run a committed value whose check read the latest tombstone of a tag began to be computed after that invalidation; a function that reads tombstones where they are written reads the latest whenever one was stored, unless invalidations of the tag overlapped or its tombstone was lost |
| `RefreshStrict.StepKeeps` | src/tag-index.ts:160-201 | every step keeps stored tombstones at the latest invalidation time of their tag and every pending or logged write vetted against it |
| `RefreshStrict.ElsewhereNeverRefused` | src/runtime.ts:1373-1378 | in every run of a function that reads tombstones elsewhere each read finds nothing, and no write is refused |
| `RefreshStrict.CheckedBeforeStored` | src/runtime.ts:1338-1381 | in every run of a strict function that finds its tombstones a stored entry that is older than the latest regular invalidation of a tag was checked before that tombstone was stored, or its check failed |
| `RefreshStrictLimits.LetsThroughIff` | src/tag-index.ts:178-201 | a process about to check can, undisturbed, commit a value older than the latest invalidation of a tag exactly when no tombstone in place is as new as its start, though the invalidation is, and its revision still matches |
| `RefreshStrictLimits.SlipsOnlyIrregular` | src/runtime.ts:1332-1381 | in a run of a function that finds its tombstones that situation takes a missing tombstone or one older than the latest invalidation, and so an overlap or a lost tombstone |
| `RefreshStrictLimits.ProtectedIffFinds` | src/runtime.ts:501-530 | for a strict function with tags the conclusion of strict invalidation holds in every run of any number of processes exactly when the function reads tombstones where they are written |
| `RefreshStrictLimits.ElsewhereIsNotProtected` | src/runtime.ts:1373-1378 | for every strict function that reads tombstones elsewhere and each of its tags, a run in which a value older than a regular, completed invalidation is committed after it |
| `RefreshStrictLimits.OverlapLetsStaleDataThrough` | src/runtime.ts:1332-1381 | for every strict function that finds its tombstones and each of its tags, a run in which overlapping invalidations store the older time last and a value older than the newer one is committed |
| `RefreshStrictLimits.CheckedTooEarly` | src/runtime.ts:1338-1381 | for every strict function that finds its tombstones and each of its tags, a run in which a completed, regular invalidation leaves an entry computed before it, because the check fell between deletion and tombstone |
| `RefreshTombstones.AllOrNone` | src/cache-function.ts:138-143 | a function in its key context finds the tombstones of all its tags, when namespace, version token and key limit allow, or else reads no key under which a tombstone of any tag is written |
| `RefreshTombstones.ProtectedIff` | src/runtime.ts:1288-1294 | strict invalidation keeps its promise in every run of any number of processes exactly when the invalidated namespace is the function's own, its version has the token of no version, and its key limit is at least the lengths of prefix and namespace plus 45 |
| `RefreshLocks.Exclusion` | src/runtime.ts:750-852 | in every run two processes hold leases at once only if one lease has ended or the storage lost a lock |
| `RefreshLocks.OneComputes` | src/runtime.ts:984-1080 | with locks on, two processes compute together only after an acquire error, a wait timeout that proceeds, an undecodable peer entry, an ended lease or a lost lock |
| `RefreshLocks.EveryLockReleased` | src/runtime.ts:1075-1079 | every token ever acquired is held by a working process, or was released exactly once, or, with fail-closed reads only, was leaked; an idle process holds none |
| `RefreshLocks.StaleReleaseHarmless` | src/runtime.ts:846-852 | a release, however late, leaves a lock taken over by another process in place |
| `RefreshLocks.FailClosedLeaks` | src/runtime.ts:803 | for every configuration with locks and fail-closed reads, a run in which a finished call leaves an unexpired lock nobody releases |
| `RefreshLocks.LeaksIff` | src/runtime.ts:803 | some run of some number of processes leaks a lock exactly when locks are on and reads fail closed |
| `RefreshAges.AnswersAreGood` | src/runtime.ts:1177-1259 | every answer of every run is an exception, a value that a computation of the run came to, or a cached value or null: of a commit no older, when judged, than its lifetime or stale window counted from the start of its write, and of what its writer had computed after reading the key |
| `RefreshAnswers.StepKeeps` | src/runtime.ts:998-1019 | every step keeps stored, found and pending entries those of commits, with deadlines counted from the start of the write and no stale window for errors, what is stored the newest commit, and recorded answers good |
| `RefreshOrigins.CommitsAreComputed` | src/runtime.ts:1021-1074 | in every run each commit at an action `CompareAndSet` of its writer comes after an action `Read` and an action `Compute` of it, the last ones: a value is what was produced and null is null, not aborted, written from the time of the computation; an error is that of the computation or of a fail-closed write; the start is the turn to refresh |
| `RefreshOrigins.RefreshGives` | src/runtime.ts:1021-1080 | at the end of a refresh the caller is given the result of the last computation, the exception of it or of a fail-closed write, or a stale value in place of an exception; a background refresh gives nothing |
| `RefreshOrigins.StepKeeps` | src/runtime.ts:984-1080 | every step keeps pending writes and answers those of the last computation of their process, every commit traced to one, and start times those of the run |
| `RefreshRemovals.EntryFate` | src/runtime.ts:1332-1381 | after every run the next action removes what is stored exactly when it is a removal, the successful deletion for a tag of the function, or the dropping of a value that does not decode; a successful compare-and-set replaces it; any other action leaves it |
| `RefreshRemovals.StoredIsStanding` | src/runtime.ts:593-641 | in every run what is stored is the newest commit, and no action since has removed it |
| `RefreshAges.ReadFindsNewest` | src/runtime.ts:321-370 | a read finds something exactly when something is stored, and that is the newest commit |
| `RefreshAges.JudgedByAge` | src/runtime.ts:1186-1190 | in every run a call goes on with the commit it found while that is within its lifetime or its stale window, counted from the start of its write, and otherwise refreshes |
| `RefreshAges.ServedByAge` | src/runtime.ts:1190-1252 | judged within its lifetime the commit is the answer, or its error is thrown, and the call is over without lock or computation; judged in the stale window it is refreshed, answered first in the background mode, or kept as the fallback if stale values may replace exceptions; one that does not decode is dropped |
| `RefreshAges.FreshIsServed` | src/runtime.ts:1183-1210 | a whole hit with others acting at every await: what is read and judged within its lifetime is the answer, with no lock and no computation |
| `RefreshAges.PromiseKept` | src/runtime.ts:1229-1252 | no step of a refresh changes whether it is in the background or what it falls back to |
| `RefreshAges.RereadJudgedByAge` | src/runtime.ts:803-809 | under the lock a peer's entry is taken exactly when its commit is within its lifetime |
| `RefreshAges.PollJudgedByAge` | src/runtime.ts:811-844 | while waiting a peer's entry is taken exactly then; otherwise the lock is tried again until the wait times out |
| `RefreshAges.PeerServed` | src/runtime.ts:998-1019 | in every run a peer's entry that decodes is served as its commit, within its lifetime, an error giving way to a stale value |
| `RefreshCalls.Call.Execute` | src/runtime.ts:1177-1259 | a whole call, with others taking any steps at each await, is part of a run of the protocol; it gives exactly one answer, ends idle and without a lock, and every answer given by then is good in the sense of `AnswersAreGood` |
| `RefreshCalls.Call.Resolve` | src/runtime.ts:1177-1259 | read, judge, decode, serve or refresh: each branch of the code is the enabled step of the protocol, and together they give one answer |
| `RefreshCalls.Call.DecodeFound` | src/runtime.ts:1189-1252 | the value found is served, and when stale refreshed; one that does not decode is deleted and counts as a miss |
| `RefreshCalls.Call.AcquireLockOrWait` | src/runtime.ts:750-844 | the polling loop ends computing, with a peer's entry, or with an exception, by protocol steps only |
| `RefreshCalls.Call.WaitForPeer` | src/runtime.ts:811-844 | after a polling interval: a fresh entry of a peer is taken, else the lock is tried again, until the wait ends computing or with an exception |
| `RefreshCalls.Call.CheckUnderLock` | src/runtime.ts:790-809 | the re-read under the lock, with the early release when a peer was faster |
| `RefreshCalls.Call.TakePeerEntry` | src/runtime.ts:998-1019 | a peer's entry is served, or deleted and computed again when it does not decode |
| `RefreshCalls.Call.RefreshEntry` | src/runtime.ts:984-1080 | every way through the refresh ends idle, after the release |
| `RefreshCalls.Call.ComputeAndWrite` | src/runtime.ts:1021-1074 | value, null, error and abort each lead to the write the code makes, or to none, and always to the release; being steps of the protocol, what they write is what was computed (`CommitsAreComputed`) |
| `RefreshCalls.Call.WriteEntry` | src/runtime.ts:486-648 | the tombstones are checked for strict functions with tags, and a refused write is no failure; the write throws only under fail-closed writes and never for an error entry; otherwise the release follows |
| `RefreshCalls.Call.PrepareAndCommit` | src/runtime.ts:532-648 | preparing the bytes and the compare-and-set, either of which can fail: an entry that is too large is dropped quietly, other failures throw under fail-closed writes of a value or null |
| `RefreshCalls.Call.CheckTombstones` | src/tag-index.ts:178-201 | tombstones are read in any order, and the write is refused exactly when one read is at or after the start of the computation |
| `Entries.RetentionIsFreshness` | src/entry.ts:10-18 | the memory storage's retention deadline has passed exactly when the entry is neither fresh nor stale |
| `Entries.FreshnessIs` | src/entry.ts:10-18 | fresh up to the deadline whatever the stale window, stale from there to its end, expired without one or after it |
| `Entries.ExpiryIsFinal` | src/entry.ts:10-18 | an expired entry stays expired as the clock moves on |
| `Entries.MeasureEntry` | src/entry.ts:21-37 | the loop computes the footprint that `SizeGrows` and `HeldWithinLimits` are about |
| `Entries.SizeGrows` | src/entry.ts:21-37 | an empty entry counts 64; another payload changes the size by the difference of the lengths, tags add two bytes for each of their characters, metadata and version one for each |
| `Memory.MemoryStorage.constructor` | src/memory.ts:94-113 | an empty storage is consistent and within its budgets |
| `Memory.MemoryStorage.UnregisterTags` | src/memory.ts:128-139 | the key leaves exactly the listed tag sets, and sets that become empty are dropped |
| `Memory.MemoryStorage.Remove` | src/memory.ts:141-156 | order, records, index and byte count after removing one key; the byte count stays the sum of the sizes |
| `Memory.MemoryStorage.Read` | src/memory.ts:159-169 | the record unless it has expired, in which case it is removed |
| `Memory.MemoryStorage.Sweep` | src/memory.ts:171-185 | all expired records and locks go, and nothing else |
| `Memory.MemoryStorage.MaybeSweep` | src/memory.ts:187-195 | a sweep happens exactly when sweeping is on and the interval has passed |
| `Memory.LiveLocksAre` | src/memory.ts:171-185 | a sweep keeps exactly the locks that have not expired |
| `Memory.MemoryStorage.EnforceBudgets` | src/memory.ts:197-208 | the loop over the keys computes eviction from the front until both budgets hold |
| `Memory.MemoryStorage.Write` | src/memory.ts:210-240 | the record replaces the old one at the recent end, its tags are registered and cut to the limit, budgets are enforced |
| `Memory.MemoryStorage.RegisterTags` | src/memory.ts:221-237 | the nested loops register the key once per tag and keep the newest keys of each set |
| `Memory.MemoryStorage.Get` | src/memory.ts:280-294 | the live entry, moved to the recent end when configured |
| `Memory.MemoryStorage.Has` | src/memory.ts:296-298 | whether a live record exists |
| `Memory.MemoryStorage.Set` | src/memory.ts:300-309 | the write, refused only when a newer or equal revision is live and `onlyIfNewer` is given |
| `Memory.MemoryStorage.CompareAndSet` | src/memory.ts:311-326 | the write goes through exactly when the live revision, or its absence, is the expected one |
| `Memory.MemoryStorage.Delete` | src/memory.ts:328-330 | the record goes, locks stay |
| `Memory.MemoryStorage.DeleteMany` | src/memory.ts:332-336 | the records go one after the other |
| `Memory.MemoryStorage.Clear` | src/memory.ts:338-352 | keys with the prefix go; without a prefix everything, index and locks included |
| `Memory.MemoryStorage.AddTags` | src/memory.ts:354-368 | more memberships and more tags on an existing record, without trimming; nothing for a missing key |
| `Memory.MemoryStorage.InvalidateTag` | src/memory.ts:370-379 | the registered keys and the tag's set go |
| `Memory.MemoryStorage.AcquireLock` | src/memory.ts:381-388 | granted exactly when no unexpired lock is stored |
| `Memory.MemoryStorage.Release` | src/memory.ts:393-398 | a token that is not the stored one changes nothing |
| `Memory.MemoryStorage.Extend` | src/memory.ts:399-406 | only the stored token extends the lock |
| `MemoryInvariants.WriteKeeps` | src/memory.ts:210-240 | after a write both budgets hold, the index is sound, and it is complete if it was and no set overflowed |
| `MemoryInvariants.LongestSuffixSurvives` | src/memory.ts:197-208 | the survivors of eviction are exactly the longest suffix of the last-use order that fits both budgets |
| `MemoryInvariants.NeverOverflows` | src/memory.ts:221-237 | with fewer entries than the index limit no set is ever trimmed |
| `MemoryInvariants.InvalidateExact` | src/memory.ts:370-379 | with a complete index, invalidating a tag removes all and only the records that carry it |
| `MemoryInvariants.ClearExact` | src/memory.ts:338-352 | clearing removes all and only the keys with the prefix |
| `MemoryInvariants.SweepExact` | src/memory.ts:171-185 | a sweep removes all and only the expired records |
| `MemoryInvariants.AddTagsGood` | src/memory.ts:354-368 | adding tags keeps the index sound and complete |
| `MemoryInvariants.TouchKeeps` | src/memory.ts:288-292 | moving a record in the order keeps sums, budgets and index |
| `MemoryOrder.StepByUse` | src/memory.ts:280-379 | every operation keeps the keys in the order of their last write or counted read |
| `MemoryOrder.OrderIsLastUse` | src/memory.ts:197-208 | after any run the keys stand in the order of last use, so that eviction takes the least recently used |
| `MemoryRuns.ReadMatches` | src/memory.ts:159-169 | a read finds exactly the entry the map shows: last written, alive, not evicted |
| `MemoryRuns.EveryStep` | src/memory.ts:280-379 | every operation keeps the invariant and answers as the map does whose keys lose a tag when they are dropped from its set |
| `MemoryRuns.MemoryIsAMap` | src/memory.ts:280-379 | after any run the next reply is that of a map in which a key loses a tag only by being dropped from the tag's full set; while no set has outgrown its limit this is the plain map, and it never happens with fewer entries than the limit; budgets always hold |
| `MemoryRuns.InvalidationSparesDropped` | src/memory.ts:370-379 | after any run invalidation removes a record exactly when its key has not lost the tag; what has the tag in the map carries it, and without overflow what carries it has it |
| `MemoryRuns.DroppedKeyIsSpared` | src/memory.ts:221-237 | for any two keys and any entry with one tag, a run with room for one key per tag in which a record outlives the invalidation of its tag, while the plain map has lost it |
| `MemoryRuns.HeldWithinLimits` | src/memory.ts:197-208 | after every run the payload bytes of all stored entries, with 64 for each, are within the size limit, and their number is within the entry limit |
| `MemoryRuns.SweepsWhenDue` | src/memory.ts:187-195 | when the interval has passed no expired record is left and live ones are kept; before that nothing changes |
| `Redis.RedisStorage.SetEntryScript` | src/redis-scripts.ts:93-142 | result and data of the atomic write, with its comparison, tag sets, reverse set, key index and TTL |
| `Redis.RedisStorage.WriteStepwise` | src/redis.ts:229-277 | result and data of the step-by-step write, with the error for an undecodable value |
| `Redis.RedisStorage.WriteEntry` | src/redis.ts:204-278 | which of the two paths is taken |
| `Redis.RedisStorage.Get` | src/redis.ts:349-352 | the decoded value under the name, unless it has expired |
| `Redis.RedisStorage.Has` | src/redis.ts:354-358 | whether anything unexpired is stored under the name, an entry or not |
| `Redis.RedisStorage.DeleteInBatches` | src/redis-scripts.ts:180-188 | deleting in batches deletes exactly the members |
| `Redis.RedisStorage.InvalidateTagScript` | src/redis-scripts.ts:165-189 | the members and the tag's set are gone, the number of members is returned |
| `Redis.RedisStorage.InvalidateTag` | src/redis.ts:424-438 | script and fallback leave the same data |
| `Redis.RedisStorage.AddTags` | src/redis.ts:406-422 | the key joins the tag sets and the sets are noted in its reverse set |
| `Redis.RedisStorage.Delete` | src/redis.ts:373-380 | entry, reverse set and key index lose the key; tag sets are left as they are |
| `Redis.RedisStorage.DeleteMany` | src/redis.ts:382-396 | exactly the given entries go, and their places in the key index |
| `Redis.RedisStorage.ClearByIndex` | src/redis.ts:324-335 | exactly the indexed keys with the prefix go, in batches, and their number is returned |
| `Redis.RedisStorage.AcquireLock` | src/redis.ts:440-450 | granted exactly when nothing is stored under the name |
| `Redis.RedisStorage.ReleaseLockScript` | src/redis-scripts.ts:146-162 | only the holder's token deletes the lock |
| `Redis.RedisStorage.ReleaseLock` | src/redis.ts:455-468 | with and without the script a stale token releases nothing |
| `Redis.RedisStorage.ExtendLock` | src/redis.ts:469-480 | only the stored token extends the lock |
| `RedisProofs.SameWriteIff` | src/redis.ts:204-278 | both write paths give the same result and data exactly when the stored value decodes, is no non-empty foreign value where absence was expected, and an accepted write has no TTL or at least one millisecond |
| `RedisProofs.RewriteMembers` | src/redis-scripts.ts:112-136 | after a write the key belongs to the new tags and to the old ones its reverse set did not list; other keys are untouched |
| `RedisProofs.RewriteExactIff` | src/redis.ts:243-272 | a rewrite leaves exactly the new memberships if and only if the dropped ones were listed in the reverse set |
| `RedisProofs.MirrorKeptIff` | src/redis.ts:354-438 | every operation on whatever key keeps the memberships of a key noted in its reverse set, except single deletion of it and expiry of its reverse set, which break this exactly when the key is a member of some tag set |
| `RedisProofs.MirroredRewriteIsExact` | src/redis.ts:243-272 | while its memberships are all noted in its reverse set, a write leaves a key registered for its new tags only |
| `RedisProofs.DeletionLeavesMemberships` | src/redis.ts:373-380 | a key deleted and written again without tags is still removed when its former tag is invalidated |
| `RedisProofs.EveryStep` | src/redis.ts:360-482 | writes by either path, added tags, deletions, invalidations, locks and expiry keep every live entry registered for every tag it carries |
| `RedisProofs.InvalidationIsComplete` | src/redis-scripts.ts:165-189 | after any run, invalidating a tag leaves no live entry that was written with it or given it later |
| `RedisProofs.InvalidationIsExact` | src/redis-scripts.ts:165-189 | after any run, invalidating a tag removes a live entry exactly when it was last written with the tag, was given it since, or has a membership gone astray: its reverse set was dropped while it was a member, and since then the tag was neither invalidated nor given to it again |
| `RedisProofs.OnlyCarriersGo` | src/redis-scripts.ts:165-189 | after any run that does not drop the reverse set of a key, its live entry goes exactly when it carries the tag |
| `RedisProofs.ClearingIsComplete` | src/redis.ts:324-335 | after any run, clearing by the key index leaves no live entry with the prefix and every other entry as it was |
| `RedisMaps.EveryStepSame` | src/redis.ts:204-482 | every operation updates the plain map as it updates the data, and a write goes through exactly when it does there |
| `RedisMaps.RedisIsAMap` | src/redis.ts:204-482 | after every run a read gives the entry last written under the name until its lifetime ends, and nothing after deletion, clearing of its prefix or invalidation of a tag it is a member of; the next write goes through exactly when the visible revision is the expected one |
| `RedisMaps.MembersCarry` | src/redis.ts:424-438 | the members of a tag with live entries in that map are those that carry the tag or whose membership has gone astray |
| `SingleFlights.SingleFlight.RunOrJoin` | src/single-flight.ts:46-121 | a fired signal is turned away, otherwise the listed flight is joined or a new one listed, and the caller is counted |
| `SingleFlights.SingleFlight.AttachConsumer` | src/single-flight.ts:123-147 | one more consumer, not yet released |
| `SingleFlights.SingleFlight.ReleaseConsumer` | src/single-flight.ts:127-136 | releasing counts once; the last to leave an unfinished flight that is not kept alive aborts it |
| `SingleFlights.SingleFlight.OnSettled` | src/single-flight.ts:72-77 | the flight is settled and leaves the table only if it is the one listed |
| `SingleFlights.SingleFlight.ClearAll` | src/single-flight.ts:190-196 | exactly the listed flights are aborted and the table is empty |
| `SingleFlightProofs.EveryStep` | src/single-flight.ts:46-148 | every call and callback keeps the count of each flight equal to its waiting consumers, one listed flight per key, and signal-less consumers waiting until the flight settles |
| `SingleFlightProofs.OneComputationPerKey` | src/single-flight.ts:57-84 | in every run a factory is called at most once per flight, counts are exact, and two unfinished uncleared flights of one key are the same |
| `SingleFlightProofs.ClearedLeavesSuccessor` | src/single-flight.ts:72-77 | a flight dropped by clearing never takes its successor off the table |
| `SingleFlightProofs.AbortedOnlyWhen` | src/single-flight.ts:127-136 | a signal fires only by clearing or when the last consumer, all of them with signals, leaves an unfinished flight that is not kept alive |
| `SingleFlightProofs.ShieldHolds` | src/single-flight.ts:86-148 | a flight kept alive or awaited without a signal is not aborted by any departures, until it is cleared |
| `SingleFlightProofs.LateCallerJoinsAborted` | src/single-flight.ts:57-84 | an aborted flight stays listed, and a later caller becomes its consumer |
| `SingleFlightProofs.JoinsAbortedIff` | src/single-flight.ts:57-148 | after every run a caller whose signal has not fired joins an aborted computation exactly when one is listed under its key and its last waiting consumer left it while it was neither kept alive nor settled |
| `SingleFlightProofs.DevotedNeverJoinsAborted` | src/single-flight.ts:57-148 | when all calls for a key keep the computation alive or have no signal, no caller for it ever joins an aborted one |
| `SingleFlightProofs.CallBoards` | src/single-flight.ts:46-121 | after every run a caller whose signal has fired changes nothing; any other becomes the last consumer of the flight then listed under its key, keeps it alive exactly when it asks for it or it was, and can leave early only with a signal |
| `TagIndexes.TagIndex.Add` | src/tag-index.ts:87-138 | with other processes adding keys at every await: stored means listed, nobody's key is lost unless the list was cut, and giving up means at least four commits by others |
| `TagIndexes.TagIndex.Invalidate` | src/tag-index.ts:147-156 | with others storing and deleting entries and adding keys at every await: a listed key has an entry afterwards exactly when others stored one after its chunk was deleted, every other key is as others left it, the index is gone, and the number of keys read is returned |
| `TagIndexRuns.EveryStep` | src/tag-index.ts:87-156 | every read, commit, lost attempt, chunk and removal keeps revisions counting, each list without duplicates, each process matched with the changes it missed, reported keys listed unless cut or clobbered, and deleted entries absent or stored again |
| `TagIndexRuns.NoKeyLost` | src/tag-index.ts:87-138 | in every run, invalidations and expiry included, a key reported as stored since the index was last removed is listed, unless since then a list was cut or written over keys it lacked; no key is listed twice |
| `TagIndexRuns.LossIff` | src/tag-index.ts:99-127 | after every run an uncut write drops a listed key exactly when the list it was built from was read before a removal of the index (without compare-and-set: before any change) and lacks a key that is not the writer's own; an accepted compare-and-set on an index not removed since the read appends its key to the stored list |
| `TagIndexRuns.FailuresAreMatched` | src/tag-index.ts:99-127 | in every run each failed attempt has a change of the index by somebody else between its read and its compare-and-set; a process that gave up changed nothing since it began, while others did at least four times |
| `TagIndexRuns.WriteKeepsNewest` | src/tag-index.ts:104-108 | an accepted write leaves the list it was built from with its key behind it, cut to the newest keys |
| `TagIndexRuns.ListWithinLimit` | src/tag-index.ts:104-108 | in every run a list that starts within its limit stays there |
| `TagIndexRuns.RestartedRevisionLosesKey` | src/tag-index.ts:110-122 | for any three different keys, a run in which a list read before the index was removed is committed over one written after it and drops a key reported as stored |
| `TagIndexRuns.OrphanedIff` | src/tag-index.ts:147-156 | after every run, of the keys listed when an invalidation removes the index those keep a live entry, listed no more, whose entry was stored after the invalidation deleted it, or lives and was listed after the invalidation read the list; and no others |
| `TagIndexRuns.AddedMeanwhileIsOrphaned` | src/tag-index.ts:16-19 | for every key, a run in which an entry stored and registered during an invalidation keeps its data while the next invalidation reads an empty list |
| `ArgumentGraphs.Encoder.Canonicalize` | src/stable-stringify.ts:26-28 | the walk starts and ends with an empty stack and computes the specified text or error |
| `ArgumentGraphs.Encoder.Encode` | src/stable-stringify.ts:64-111 | depth limit, rejected kinds and references back to an enclosing object; the stack is restored on every path |
| `ArgumentGraphs.Encoder.EncodeObject` | src/stable-stringify.ts:113-173 | parts of maps and sets sorted, arrays in order, counts in front |
| `ArgumentGraphs.Encoder.EncodePairs` | src/stable-stringify.ts:133-140 | map entries, key before value, first error wins |
| `ArgumentGraphs.Encoder.EncodeAll` | src/stable-stringify.ts:141-152 | members one after the other, first error wins |
| `ArgumentGraphs.Encoder.EncodeMembers` | src/stable-stringify.ts:163-172 | members in the order of sorted names, `undefined` ones skipped |
| `ArgumentTrees.KeyOfTree` | src/stable-stringify.ts:64-173 | on a graph that stands for a tree a key is derived exactly when nothing rejected is inside and nothing looked at is deeper than the limit, and it is the text of the tree |
| `ArgumentTrees.SameKeyIffSameStructure` | src/stable-stringify.ts:64-173 | keys of two arguments agree exactly when the arguments are structurally equal, however objects are shared |
| `ArgumentTrees.CycleIsKeyed` | src/stable-stringify.ts:99-103 | an array that contains itself gets a key with the distance back |
| `ArgumentTrees.DepthLimit` | src/stable-stringify.ts:64-69 | arrays nested up to 32 deep can be keyed, deeper ones cannot |
| `ArgumentTrees.KeyableAtoms` | src/stable-stringify.ts:78-98 | of values without members exactly symbols, functions, errors and class instances cannot be keyed |
| `CanonicalProofs.ReadBack` | src/stable-stringify.ts:64-173 | a text followed by nothing or a delimiter determines the text and what follows |
| `CanonicalEquality.TextToNorm` | src/stable-stringify.ts:64-173 | equal texts come from structurally equal values |
| `CanonicalEquality.NormToText` | src/stable-stringify.ts:64-173 | structurally equal values have equal texts, members equal to `undefined`, property, set and map order and the kind of buffer ignored |
| `CanonicalEquality.SameTextIffSameStructure` | src/stable-stringify.ts:64-173 | both directions together, for values whose property names do not continue one another with `=` and what begins like a value |
| `CanonicalEquality.PropertyOrderIgnored` | src/stable-stringify.ts:163-172 | listing the same properties in another order gives the same text |
| `CanonicalEquality.NameCollision` | src/stable-stringify.ts:170 | for every name, text and value, an object whose name continues that name with the opening of a string shares the text of a different object |
| `CanonicalEquality.UrlCollision` | src/stable-stringify.ts:117-119 | for every address there is another with which swapping two elements does not change the text |
| `CanonicalEquality.BufferTexts` | src/stable-stringify.ts:120-128 | buffers up to 256 bytes share a text exactly when they are equal, larger ones when their lengths and the first 16 bytes of their SHA-256 digests are, of whatever kind they are |
| `Sorting.SortIgnoresOrder` | src/stable-stringify.ts:139 | sorting depends on the strings only |
| `Sorting.LeIsCodeUnitOrder` | src/stable-stringify.ts:163 | the order is by prefix, or by the first code unit that differs |
| `Sorting.SortAscends` | src/stable-stringify.ts:163 | sorted strings ascend in that order |
| `Strings.TrimStrips` | src/keys.ts:88 | trimming takes all white space from both ends and nothing else |
| `SerializerProofs.RoundTrip` | src/serializer.ts:53-247 | decoding the encoding of any value gives its normal form: dropped members gone, buffers bytes, an error without a stack given a new one |
| `SerializerProofs.EncodesIffSupported` | src/serializer.ts:53-172 | encoding succeeds exactly for values without symbols, functions or instances where it looks, and fails with that error otherwise |
| `SerializerProofs.PlainNeverTagged` | src/serializer.ts:158-171 | a plain object never encodes to a tagged form |
| `SerializerProofs.EntriesRebuilt` | src/serializer.ts:206-216 | the loop of `map.set` calls rebuilds the entries, since distinct keys stay distinct |
| `SerializerProofs.ItemsRebuilt` | src/serializer.ts:217-224 | the loop of `set.add` calls rebuilds the members |
| `SerializerOrder.OrderIrrelevant` | src/serializer.ts:158-171 | a value and the value with all properties sorted, at every depth, have the same output |
| `SerializerOrder.SameOutput` | src/serializer.ts:12 | values that differ in property order only have the same output or the same error |
| `SerializerOrder.Reordered` | src/serializer.ts:159-161 | listing an object's properties differently gives such values |
| `SerializerOrder.NormalIsOrdered` | src/serializer.ts:53-247 | of a value with nothing that cannot be written back the normal form differs in the order of properties only |
| `SerializerGraphs.JsonWriter.ToJsonSafe` | src/serializer.ts:53-145 | an object being written is reported as circular; the set of such objects is restored on every path |
| `SerializerGraphs.JsonWriter.WriteObject` | src/serializer.ts:110-141 | tagged lists for maps and sets, arrays in order |
| `SerializerGraphs.JsonWriter.WritePairs` | src/serializer.ts:110-119 | map entries in order, first error wins |
| `SerializerGraphs.JsonWriter.WriteAll` | src/serializer.ts:120-129 | members in order, first error wins |
| `SerializerGraphs.JsonWriter.SerializePlainObject` | src/serializer.ts:147-172 | sorted names, tag key and `undefined` skipped, `__proto__` converted but not kept |
| `SerializerGraphs.AcceptedIffTree` | src/serializer.ts:81-86 | a graph is encoded without error exactly when it stands for a finite tree of supported values, shared objects allowed, and the output is the tree's |
| `SerializerGraphs.CircularIsNoTree` | src/serializer.ts:82-84 | a value reported as circular is described by no tree |
| `Codec.MetaRoundTrip` | src/codec.ts:33-75 | metadata lose nothing but an empty tag list, infinite deadlines included |
| `Codec.StringRoundTrip` | src/codec.ts:126-153 | decoding the textual form gives the entry back up to an empty tag list, whenever its own metadata and revision survive JSON and number text |
| `Codec.RevisionsAgree` | src/codec.ts:161-168 | whenever an envelope decodes, the revision read on its own is the entry's |
| `Codec.EncodeEntry` | src/codec.ts:78-91 | the filled buffer is header, metadata and payload, nothing more |
| `Codec.BytesRoundTrip` | src/codec.ts:78-111 | decoding the binary form gives the entry back up to an empty tag list, whenever its own metadata survive JSON and their length fits 32 bits |
| `Codec.HeaderBytesIgnored` | src/codec.ts:94 | the last two magic bytes and the flags do not influence decoding |
| `Base64.ToBase64` | src/bytes.ts:28-52 | the shifts on 32-bit chunks produce the text of RFC 4648, section 4 |
| `Base64.EncodeRest` | src/bytes.ts:38-50 | the bytes left after the last full group give their letters and the padding |
| `Base64.FromBase64` | src/bytes.ts:54-78 | the decoder equals the reading of the digits although its 32-bit buffer wraps; the first foreign character is reported |
| `Base64.RoundTrip` | src/bytes.ts:28-78 | every byte sequence comes back |
| `Base64.Injective` | src/bytes.ts:28-52 | different bytes have different texts |
| `Base64.EncodedShape` | src/bytes.ts:28-52 | the exact length of the text, and neither bar nor white space in it |
| `Base64.DigitStep` | src/bytes.ts:69-75 | one digit more in the wrapping buffer is one digit more of the data |
| `Base64.Alphabet0` | src/bytes.ts:14 | digits 0 to 15 are written with the letters of the standard |
| `Base64.Alphabet16` | src/bytes.ts:14 | digits 16 to 31 are written with the letters of the standard |
| `Base64.Alphabet32` | src/bytes.ts:14 | digits 32 to 47 are written with the letters of the standard |
| `Base64.Alphabet48` | src/bytes.ts:14 | digits 48 to 63 are written with the letters of the standard |
| `Sha256.Pad` | src/sha256.ts:32-42 | the filled buffer is the padding of section 5.1.1 of FIPS 180-4 |
| `Sha256.PaddedLength` | src/sha256.ts:34 | the shortest whole number of blocks that holds the message and nine bytes more |
| `Sha256.EndsInBitLength` | src/sha256.ts:39-40 | the padding ends in the 64-bit big-endian bit length |
| `Sha256.PaddingInjective` | src/sha256.ts:32-42 | different messages have different paddings |
| `Sha256.Schedule` | src/sha256.ts:52-64 | the message schedule of section 6.2.2, step 1 |
| `Sha256.CompressBlock` | src/sha256.ts:66-100 | the rotating variables compute the compression of one block |
| `Sha256.WriteDigest` | src/sha256.ts:103-108 | the state words in big-endian order |
| `Sha256.Hash` | src/sha256.ts:45-109 | the digest of FIPS 180-4 for every byte sequence |
| `Sha256Example.DigestOfExample` | src/sha256.ts:45-109 | the digest of "abc" is the published one, followed through schedule and rounds |
| `Sha256Laws.ChChooses` | src/sha256.ts:77 | each bit is taken from the second or the third word as the first one says |
| `Sha256Laws.MajAgrees` | src/sha256.ts:82 | where two words agree the result is what they agree on |
| `Sha256Laws.RotrMovesBits` | src/sha256.ts:28-30 | rotating by any number moves each bit that many places down and around the end |
| `Sha256Laws.RotrBack` | src/sha256.ts:28-30 | rotating by the rest brings the word back |
| `Sha256Laws.WordOfBytes` | src/sha256.ts:52-56 | four bytes are read as a big-endian number and written back as they were |
| `Sha256Laws.BytesOfWord` | src/sha256.ts:103-108 | a word is written as the four bytes of its big-endian number and read back |
| `Sha256Laws.RoundConstantsAreCubeRoots` | src/sha256.ts:14-23 | each round constant is the fractional part of the cube root of its prime to 32 bits |
| `Sha256Laws.InitialValueIsSquareRoots` | src/sha256.ts:25 | the initial words are the fractional parts of the square roots of the first eight primes to 32 bits |
| `Sha256Laws.HexReads` | src/hash.ts:12-15 | the hexadecimal text read two digits at a time gives the bytes back |
| `Keys.LabelShape` | src/keys.ts:87-94 | a label has 1 to 40 characters, all of them safe |
| `KeyProofs.ShaIsHex` | src/hash.ts:12-15 | SHA-256 in hexadecimal has the shape assumed of the hash |
| `KeyProofs.KeyBounded` | src/keys.ts:110-130 | no key is longer than its limit, whatever the limit |
| `KeyProofs.EntryKeyLength` | src/keys.ts:133-136 | at the default limit entry keys have at most 199 characters and are never shortened |
| `KeyProofs.CustomKeyForm` | src/keys.ts:139-151 | at the default limit a custom key keeps its base, with the text or a hash behind it |
| `KeyProofs.ClearedIff` | src/keys.ts:110-130 | clearing a namespace finds a key of it exactly when the key was not shortened or the limit leaves room for the namespace |
| `KeyProofs.ClearedOnlyByOwn` | src/runtime.ts:1422-1433 | with that room, keys are cleared with their own prefix and namespace and with no other |
| `KeyProofs.DefaultHasRoom` | src/keys.ts:31 | the default limit leaves room for every valid prefix and namespace |
| `KeyProofs.CutIntoOther` | src/keys.ts:124-129 | a limit that ends inside the namespace puts a shortened key under the namespace cut there |
| `KeyProofs.ClearedByOtherIff` | src/keys.ts:110-130 | clearing some other valid prefix or namespace deletes a key exactly when the key is longer than the limit and the limit lies strictly between 38 plus the length of the prefix and 38 plus the lengths of prefix and namespace |
| `KeyProofs.KindsDisjoint` | src/keys.ts:133-169 | at the default limit entry, custom, tag, tombstone and lock keys never meet, in whatever namespaces and versions, and two entries share a key only with the same namespace, label and hash |
| `KeyProofs.VersionsApart` | src/keys.ts:104-108 | at the default limit two keys of any kind are the same only when the hashes of their versions begin with the same eight digits |
| `KeyProofs.ReservedKeysApart` | src/keys.ts:154-169 | at the default limit tags share index and tombstone, and entries share a lock, exactly when the hashes begin with the same 24 digits |
| `KeyProofs.CustomKeysApart` | src/keys.ts:139-151 | custom keys that fit are the same exactly when their texts differ in nothing but colons against dashes |
| `KeyProofs.LongKeysApart` | src/keys.ts:124-129 | keys that are cut are the same only when the hashes of the whole keys begin with the same 32 digits |
| `KeyProofs.BareKeysApart` | src/keys.ts:119-123 | under limits that leave room for a hash only, the same holds with all digits that fit |
| `KeyProofs.LabelOfSafeName` | src/keys.ts:87-94 | a safe name of at most 40 characters without dashes at its ends is its own label; without a name it is `fn` |
| `KeyProofs.RunBecomesDash` | src/keys.ts:92 | each run of other characters becomes one dash |
| `KeyProofs.TombstoneKeysMeetIff` | src/keys.ts:160-163 | the key a function reads for a tag is the key an invalidation writes for a tag exactly under that condition and with equal hashes of the tags, for every limit, version and namespace |
| `KeyProofs.DefaultMeetsTombstones` | src/cache-function.ts:138-143 | with the default limit, its own namespace and no version a function meets that condition |
| `KeyProofs.ShortLimitHidesTombstones` | src/cache-function.ts:121-124 | with prefix `rsc-cache`, namespace `default` and an allowed limit of 60 no tombstone key is ever read |

## Left out

- src/runtime.ts: one cache key at a time; the number of polls before the wait times out, and every outcome of the storage, the computation and the decoding, are arbitrary.
- StrictInvalidation: a tombstone's expiry is one of the ways in which the storage loses it; its 24 hours are not modelled.
- SameTextIffSameStructure: names of which one continues another with `=` and what begins like a value, addresses with delimiters, flags and ISO texts outside their grammar are excluded; `NameCollision` and `UrlCollision` give a collision for every name and address, but not every excluded pair of names has one.
- SameTextIffSameStructure: buffers above 256 bytes count as equal when their length and 128-bit hash agree.
- A storage write that timed out and is applied later, and a lock acquisition that timed out and succeeded, are not steps of the protocol.
- Registering tags after a commit is part of the commit step; the tag index has its own model.
- Callers of one process that share a flight are modelled by the coalescing table, not in the protocol, where every process is one flight.
- The clock never goes back; timestamps and TTLs are whole milliseconds.
- The record of a flight is an element of a list and its identity the position in it; promises, listeners and `track`/`settle` are left out, and one signal shared by several callers is several departures.
- Counters, events, listeners and logging of all components.
- The interval timer and `close` of the memory storage, and options that are not whole numbers.
- Redis: clearing by `SCAN`, counters, and the binary encoding; reverse sets expire by a step of the runs, at any time. Tag keys are pairs of a namespace and a tag, so collisions of their 24-digit hashes are not modelled.
- Redis entries registered under one namespace and invalidated under another: the runs use one namespace throughout.
- Redis: what other clients do between the commands of the step-by-step path.
- Add: other processes append keys at every await but neither cut the list nor invalidate; `TagIndexRuns` has those steps.
- Invalidate: other processes add keys to the list meanwhile but neither cut it nor invalidate; `TagIndexRuns` has those steps.
- The emulated compare-and-set for storages without one, and the KV adapter, both documented as best effort.
- Serializer: members of a tagged object whose type the encoder never writes are reported as malformed; the conversions the language would try are not modelled.
- Serializer: integer-like property names are enumerated first by the language; since the order of names is a function of the set of names this does not affect determinism, and objects are compared by members.
- Sparse arrays, getters that change between reads, and objects with more than data in them.
- JSON text, UTF-8, number texts, date, address and pattern parsing are parameters or identified with their text.
- BytesRoundTrip: metadata of 4 GiB and more, whose length does not fit its field.
- Metadata that JSON cannot write, whose footprint is a constant in the source.
- Collision resistance of SHA-256; in the protocol and the storages tags are different tags even where their 24-digit hashes agree.
- Configuration checks, duration parsing, timeouts, the request memo, adapters for frameworks, the CLI.
