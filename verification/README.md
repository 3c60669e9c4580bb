# A verified model of the systems assignments

A Dafny model of the protocols, indexes, parsers and file formats of this
repository, with proofs of what they are meant to guarantee. `dafny verify
dfyconfig.toml` checks all of it.

## What is modelled

**Thread pool** (`ThreadPool*.dfy`). Any number of workers, a dispatcher, any
number of client threads calling `schedule` and `wait`, and the destructor, as a
state machine with one step per flag write, counter change, semaphore operation
and queue operation. `ThreadPoolWakeup.dfy` settles which sleeping clients are
notified. `ThreadPoolObject.dfy` is the pool as an object whose fields
each thread's next action updates in place.

**Ordered parallel printing** (`ParallelCalculate.dfy`). The threads of
`parallelCalculate`, one step per mutex, queue and condition-variable operation,
with spurious wakeups.

**Worker farm** (`Farm.dfy`, `FarmObject.dfy`, `Factor.dfy`). Main, the SIGCHLD
handler that may interrupt it between any two steps, and the self-stopping
workers, from the end of `spawnAllWorkers` on. Signals follow section 2.4 of
POSIX.1-2017 (System Interfaces): one pending bit, blocking, and `sigsuspend`.
The workers' factorization is proved against unique prime factorization.

**Keyword search** (`KeywordIndex.dfy`, `IndexWriter.dfy`, `QueryParser.dfy`). The
bytes of the index file, the binary search in it, the word-by-word join of a
phrase, and the query parser, against a naive scan of the corpus, a writer of
index files, and an independent splitter.

**Article merging** (`NewsAggregator.dfy`). Runs of atomic `updateArticle` steps.

**Proxy** (`ProxyLoop.dfy`, `ChunkedPayload.dfy`, `HTTPCache.dfy`). The loop check
on the forwarded-for header, the chunked-body reader against section 4.1 of
RFC 7230, and the response cache as a state machine over its files and a clock, with the
`Cache-Control` text that decides what it stores.

**Unix V6 files** (`UnixFile.dfy`). Inodes, the three addressing schemes, file
blocks, the checksum loop and directory listing over the bytes of a disk image,
including sectors that cannot be read.

**Shell jobs** (`JobList.dfy`, `Shell.dfy`, `ShellObject.dfy`). The job list as
objects updated in place, and the shell as a state machine in which the SIGCHLD
handler delivers status reports whenever the signal is not blocked.

**Signature file** (`SignatureCache.dfy`). What `cacheSignatures` writes and
`loadSignaturesFromCache` reads.

Each state machine comes with a class whose methods perform the steps on fields;
their contracts say what the program's users may rely on after a step, a whole
run, or a run to completion under an adversarial scheduler. Algorithms with loops
are methods proved against specification functions. `Sums.dfy`, `Lexicographic.dfy`, `Text.dfy`,
`Decimal.dfy` and `Wrappers.dfy` are shared.

Shared fields are sequentially consistent, and each step of a machine is atomic.
`popWork` is modelled as returning the front value. The clock, the kernel's
signal bit, pipes and pids are parts of the states or parameters of the steps.

## Where code and documentation differ

- assign1/amazon.h says that `searchKeywordIndex` clears `reviewIndexes`; the code
  appends to it. The model appends.
- assign3/farm.cc:109 warns of a race before `sigsuspend`. SIGCHLD is blocked
  there, and `Farm.NoLostWakeup` shows that no wakeup is lost.

## Model

| member | source | states |
|---|---|---|
| ThreadPoolResults.WaitReturnsOnlyWhenAllFinished | assign5/thread-pool.cc:103-123 | in every reachable state, whenever a step makes a `wait` return, the thunks finished are exactly those pushed so far |
| ThreadPoolResults.FifoAndExactlyOnce | assign5/thread-pool.cc:144-164 | popped thunks followed by queued thunks are the pushed thunks in order; every popped thunk is finished once or held in one place |
| ThreadPoolResults.SlotNeverOverwritten | assign5/thread-pool.cc:48-70 | the dispatcher writes a `work` slot only when its worker is parked with no request outstanding; a worker only runs a slot assigned and not yet run |
| ThreadPoolResults.AssertsNeverFail | assign5/thread-pool.cc:64-141 | no assert on index, flag or counter fails, nor that of `schedule`, and `front` is never called on an empty queue |
| ThreadPoolResults.AssertedFacts | assign5/thread-pool.cc:64-141 | at each program point with an assert, what it tests holds: an available worker ahead of the scan, the flag set and the counter positive, the queue non-empty, the slot filled, the pool not stopping |
| ThreadPoolResults.CounterLagsFlags | assign5/thread-pool.cc:125-141 | counter = true flags + (dispatcher between clearing a flag and decrementing) - (workers between setting a flag and incrementing) |
| ThreadPoolInvariant.StepKeepsInv | assign5/thread-pool.cc:32-164 | the invariant behind these results survives every step of every thread |
| ThreadPoolInvariant.TestSucceedsOnlyWhenIdle | assign5/thread-pool.cc:103-123 | queue empty and counter full under the queue mutex leave no thunk in any hand |
| ThreadPoolResults.ShutdownStep | assign5/thread-pool.cc:72-94 | after the destructor's wait, each own step lowers the remaining work and neither pops nor finishes a thunk |
| ThreadPoolResults.ShutdownProgress | assign5/thread-pool.cc:72-94 | until the destructor has returned, some thread of the pool can step |
| ThreadPoolResults.ShutdownBounded | assign5/thread-pool.cc:72-94 | every schedule of the shutdown takes boundedly many own steps and runs no further thunk |
| ThreadPoolResults.ShutdownComplete | assign5/thread-pool.cc:72-94 | when it is over all threads are joined, each worker took exactly one stop signal, and every thunk ever pushed has been run |
| ThreadPoolProgress.OpenStep | assign5/thread-pool.cc:46-101 | while the pool is open, each step of its threads lowers the remaining work, a scheduled thunk adds a fixed share, and nothing else adds any |
| ThreadPoolProgress.OpenRunsAreBounded | assign5/thread-pool.cc:46-101 | every schedule of the open pool takes boundedly many steps of its threads, given the thunks scheduled meanwhile |
| ThreadPoolProgress.QuietPoolIsDone | assign5/thread-pool.cc:46-101 | when the threads have come to rest and no call is half done, the queue is empty and everything pushed has been run |
| ThreadPoolProgress.WaitStep | assign5/thread-pool.cc:103-110 | with the queue empty and all workers available, each action of a client in `wait`, asleep or not, brings it nearer to its return |
| ThreadPoolProgress.WaitReturns | assign5/thread-pool.cc:88-110 | so `wait` returns within four actions of the client, however often it has slept, and the destructor's lets the destructor go on |
| ThreadPoolProgress.HoldStep | assign5/thread-pool.cc:103-110 | whatever its tests find, a client gives the queue's mutex up within five actions, to sleep or to return |
| ThreadPoolWakeup.BusyPoolNotifies | assign5/thread-pool.cc:133-141 | no schedule brings a pool with work in it to rest without a call of `notify_all` |
| ThreadPoolWakeup.SilentUntilScheduled | assign5/thread-pool.cc:133-141 | once the pool is at rest nothing notifies before the next thunk is scheduled, not even the destruction of the pool |
| ThreadPoolWakeup.NotifiedExactlyIfBusy | assign5/thread-pool.cc:103-141 | a client that goes to sleep is notified by the time the pool is at rest if and only if the pool was still busy when it went to sleep |
| ThreadPoolWakeup.NotificationMissed | assign5/thread-pool.cc:103-141 | a run of one worker after which a client sleeps with the queue empty and the worker available, and is never notified unless something is scheduled |
| ThreadPoolObject.ThreadPool.WorkerAction | assign5/thread-pool.cc:49-56 | after any action of a worker no assert of it has failed, it has finished precisely the thunk in its slot if it ran one, and popped thunks are finished or held in one place |
| ThreadPoolObject.ThreadPool.DispatcherAction | assign5/thread-pool.cc:46-84 | after any action of the dispatcher no assert of it has failed, thunks have been handed out in the order pushed, and no slot in use was written |
| ThreadPoolObject.ThreadPool.DestructorAction | assign5/thread-pool.cc:88-94 | when the destructor returns every thread has been joined, each worker took one stop signal, and everything pushed has been run |
| ThreadPoolObject.ThreadPool.ClientAction | assign5/thread-pool.cc:96-110 | when the action makes `wait` return, everything pushed so far has been run; the assert of `schedule` has not failed |
| ThreadPoolObject.ThreadPool.Schedule | assign5/thread-pool.cc:96-101 | in every state the object can be in the assert holds, and the thunk is queued behind all others |
| ThreadPoolObject.ThreadPool.Run | assign5/thread-pool.cc:32-164 | after any schedule: order and conservation of the thunks, and the lagging counter |
| ThreadPoolObject.ThreadPool.Drain | assign5/thread-pool.cc:46-101 | an open pool left to itself under an adversarial scheduler comes to rest with everything pushed run |
| ThreadPoolObject.ThreadPool.FinishWait | assign5/thread-pool.cc:103-110 | once the pool is idle a client's own actions make its `wait` return, with everything pushed run, and the destructor's moves it on |
| ThreadPoolObject.ThreadPool.DrainAndWait | assign5/thread-pool.cc:46-110 | a `wait` on an open pool that nobody else uses returns under an adversarial scheduler, with everything pushed run, if the client is run again |
| ThreadPoolObject.ThreadPool.Shutdown | assign5/thread-pool.cc:72-94 | under an adversarial scheduler the destructor ends, with all threads joined, one stop signal each, everything pushed run, and no thunk run on the way |
| ThreadPoolObject.RunAll | assign5/thread-pool.cc:32-110 | a pool that is built, given thunks and destroyed, an adversary scheduling its threads, has run exactly those thunks when the destructor returns |
| ParallelCalculate.OutputIsOrderedPrefix | assessment2/parallel_calculate.cc:36-65 | in every reachable state the output is `calculate` mapped over a prefix of the data |
| ParallelCalculate.PendingEntriesLineUp | assessment2/parallel_calculate.cc:43-62 | no index is queued twice, the k-th queued index is the thread with the k-th item taken and not yet popped, and no item is lost |
| ParallelCalculate.FrontNeverOnEmpty | assessment2/parallel_calculate.cc:48-62 | `front` and `pop` are only called on non-empty queues, and a thread pops its own index |
| ParallelCalculate.ActKeepsInv | assessment2/parallel_calculate.cc:36-65 | every action keeps the invariant, including that a waiting thread that was not notified is never at the front |
| ParallelCalculate.Progress | assessment2/parallel_calculate.cc:36-65 | no deadlock: until all threads have returned, one can act without a spurious wakeup |
| ParallelCalculate.RunsAreBounded | assessment2/parallel_calculate.cc:36-65 | every run takes a number of actions bounded by data, thread count and twice the spurious wakeups |
| ParallelCalculate.AllPrinted | assessment2/parallel_calculate.cc:36-65 | once all threads have returned everything has been printed, in order |
| ParallelCalculate.Printer.Step | assessment2/parallel_calculate.cc:36-65 | one action on the shared variables is the machine's action |
| ParallelCalculate.Printer.RunToCompletion | assessment2/parallel_calculate.cc:29-66 | whichever thread acts next, and with any number of spurious wakeups, the run ends with the whole output in order |
| Farm.CounterIsFlagCount | assign3/farm.cc:54-140 | outside an update the counter is the number of available flags |
| Farm.NoLostWakeup | assign3/farm.cc:54-123 | an unreaped stop has SIGCHLD pending or a handler still looping, and a suspended main can then be interrupted |
| Farm.AssertsNeverFail | assign3/farm.cc:54-153 | no assert in the handler (a worker with the reaped pid is found, flag, counter), the scan, or the assignment fails, for distinct recorded pids |
| Farm.AssertedFacts | assign3/farm.cc:54-153 | at each program point with an assert, what it tests holds, and the search by a reaped pid finds the worker that has it |
| Farm.LinesConserved | assign3/farm.cc:142-159 | every accepted line is answered once or is in exactly one place |
| Farm.OneLinePerWorker | assign3/farm.cc:133-159 | a continued worker has exactly one line to read, an available one is stopped with none |
| Farm.AllAnsweredAtReturn | assign3/farm.cc:161-172 | when `waitForAllWorkers` returns every accepted line has been answered |
| Farm.StepKeepsInv | assign3/farm.cc:54-172 | the invariant survives every step of main, handler, workers and stray signals |
| Farm.Progress | assign3/farm.cc:54-172 | until main is done something other than a stray signal can happen |
| Farm.RunsAreBounded | assign3/farm.cc:54-172 | every run takes a number of steps bounded by the input, the number of workers, and three times the stray signals |
| Farm.QuietRunIsComplete | assign3/farm.cc:142-172 | a run with nothing left to do has answered precisely the numbers before the first malformed line |
| Farm.AcceptingIsPrefix | assign3/farm.cc:142-153 | the accepted numbers are those of the lines before the first malformed one or the end |
| FarmObject.FactorFarm.SearchWorker | assign3/farm.cc:64-83 | the search by pid stops at the first worker with that pid, if there is one |
| FarmObject.FactorFarm.HandlerAction | assign3/farm.cc:54-85 | after any action of the handler no assert of it has failed, the counter is right outside an update, and it returns only when no stop is left unreaped |
| FarmObject.FactorFarm.MarkWorkersAsAvailable | assign3/farm.cc:54-85 | the whole handler, no process stopping meanwhile: every reported stop is reaped and makes its worker available, nothing else about the workers changes, and the counter agrees |
| FarmObject.FactorFarm.MainAction | assign3/farm.cc:101-172 | after any action of main no assert of it has failed, and when it is done exactly the numbers before the first malformed line have been answered |
| FarmObject.FactorFarm.ProcessAction | assign3/factor.py:38-45 | the line a worker reads is the only one in its pipe, and no line is lost or answered twice |
| FarmObject.FactorFarm.Run | assign3/farm.cc:54-172 | after any schedule no assert has failed, and if main is done exactly the numbers before the first malformed line have been answered |
| FarmObject.FactorFarm.RunToCompletion | assign3/farm.cc:54-172 | under an adversarial scheduler and any number of stray signals main gets past `waitForAllWorkers` with exactly those numbers answered |
| Factor.TestPrime | assign3/factor.py:16-20 | trial division up to the square root decides primality for every integer |
| Factor.Factorization | assign3/factor.py:22-34 | for every num >= 2 the list is ascending, prime, and multiplies to num, although the range stays fixed while num shrinks |
| Factor.FactorizationUnique | assign3/factor.py:22-34 | that list is the only ascending list of primes with product num |
| KeywordIndex.FindKeywordPtr | assign1/amazon.cc:37-56 | finds the entry of a keyword exactly when the file has one |
| KeywordIndex.JoinStep | assign1/amazon.cc:104-121 | a longer phrase ends here exactly if its last word is here and the shorter phrase ends one offset before, the unsigned wrap at 0 included |
| KeywordIndex.Join | assign1/amazon.cc:102-121 | the inner loop keeps exactly the listed places that continue a phrase |
| KeywordIndex.FindReviewsContainingTerm | assign1/amazon.cc:80-133 | for a non-empty term, exactly the reviews with the words at consecutive offsets of one portion |
| KeywordIndex.SearchKeywordIndex | assign1/amazon.cc:136-163 | appends, ascending and each once, exactly the reviews that match every term of the query |
| KeywordIndex.SmallIndexIndexes | assign1/amazon.cc:71-103 | an explicit file is an index of its corpus, so the assumptions on the file can be met |
| IndexWriter.U32Inverts | assign1/amazon.cc:38-45 | an unsigned int written low byte first is read as itself, wherever it stands |
| IndexWriter.PlaceInverts | assign1/amazon.cc:71-78 | a review, portion and 24-bit offset written into two words are read back |
| IndexWriter.EntryInverts | assign1/amazon.cc:94-104 | the keyword, the count after one or two null bytes, and the places of a written entry are read back in order |
| IndexWriter.WrittenFileIndexes | assign1/amazon.cc:37-104 | the file written for a corpus meets the assumption under which the search is proved |
| IndexWriter.EveryCorpusHasAnIndex | assign1/amazon.cc:37-104 | every corpus whose places and words fit the format has such a file, if it is below 4 GB |
| Lexicographic.LessIsFirstDifference | assign5/article.h:31-33 | the order on strings is decided by the first difference, a proper prefix being less |
| QueryParser.ConvertQuery | assign1/amazon.cc:250-313 | equals the independent splitter; no empty word or term; the words concatenate to the query's lower-cased letters and digits in order |
| QueryParser.WrittenTermsRoundTrip | assign1/amazon.cc:250-313 | any list of non-empty terms comes back unchanged when each is written as a quoted phrase or as hyphenated words and they are joined by spaces |
| QueryParser.CaseIsIgnored | assign1/amazon.cc:260-269 | replacing a capital of the alphabet by its small letter anywhere leaves the terms as they are |
| QueryParser.OthersAreDropped | assign1/amazon.cc:260-269 | so does removing a character that is no letter, digit, quote, space or dash |
| NewsAggregator.SetIntersection | assign5/news-aggregator.cc:200-206 | the merge of two lists |
| NewsAggregator.MeetIsIntersection | assign5/news-aggregator.cc:200-206 | the merge of two sorted lists is sorted and is their multiset intersection |
| NewsAggregator.ServerOfHTTP | assign5/utils.cc:15-24 | the server of an http URL is its host |
| NewsAggregator.ServerOfHTTPS | assign5/utils.cc:15-24 | that of an https URL is its host exactly if "http://" occurs nowhere in it, and otherwise the empty string |
| NewsAggregator.Aggregator.UpdateArticle | assign5/news-aggregator.cc:177-213 | one update of the map, as a single step |
| NewsAggregator.Aggregator.ProcessArticle | assign5/news-aggregator.cc:220-234 | a new URL is recorded and updated with its sorted tokens, a known one changes nothing |
| NewsAggregator.FinalEntries | assign5/news-aggregator.cc:177-213 | after any updates an entry is the sorted multiset intersection of all its token lists with an article of least URL, and exists exactly if one was updated |
| NewsAggregator.FinalOrderIndependent | assign5/news-aggregator.cc:177-213 | the result depends only on the collection of updates, not on their order or repetition |
| ProxyLoop.SplitJoin | assign6/request-handler.cc:73-83 | splitting the forwarded-for value gives back the addresses that were appended |
| ProxyLoop.SplitParts | assign6/request-handler.cc:73-83 | the parts of any value at all make it up again, and the delimiter occurs in none of them |
| ProxyLoop.HTTPRequest.AddHeaders | assign6/request-handler.cc:62-71 | appends the client to the chain of addresses, sets the protocol header, and leaves other headers alone |
| ProxyLoop.HTTPRequest.ContainsProxyLoop | assign6/request-handler.cc:73-83 | true exactly if the client is among the recorded addresses other than the last |
| ProxyLoop.AcceptedExactly | assign6/request-handler.cc:62-83 | a chain is accepted exactly if an address only ever repeats the one immediately before it |
| ProxyLoop.ChainBound | assign6/request-handler.cc:62-83 | an accepted chain over m addresses has at most 2m hops |
| ProxyLoop.ChainBoundAttained | assign6/request-handler.cc:62-83 | and 2m hops are possible |
| ProxyLoop.Travel | assign6/request-handler.cc:62-83 | passing requests through the code stops at the first hop that is not accepted |
| ChunkedPayload.HTTPPayload.IngestChunkedPayload | assign6/payload.cc:46-75 | terminates on every stream, truncated ones included, having stored and consumed what the specification says |
| ChunkedPayload.RereadIsIdentity | assign6/payload.cc:35-61 | a stored payload, written out and read again, is stored as the same bytes, whatever it was first read from |
| ChunkedPayload.HexRoundTrip | assign6/payload.cc:52-53 | a chunk size written in hexadecimal is read as itself |
| ChunkedPayload.TrimPadded | assign6/payload.cc:50 | trimming takes off exactly the white space around a line |
| ChunkedPayload.HexDigitIsTable | assign6/payload.cc:52-53 | the digits read are those of two tables of sixteen characters, and no others |
| ChunkedPayload.SizeRead | assign6/payload.cc:52-53 | any spelling of a size, each digit in either case, is read as that size |
| ChunkedPayload.LargeChunkSize | assign6/payload.cc:52-53 | a size too large for an int wraps, and one too large for a long is read as -1 |
| ChunkedPayload.IngestBody | assign6/payload.cc:46-61 | a well-formed body, its sizes spelled in either case, padded or with bare line feeds, is stored in normal form and nothing beyond it is consumed |
| ChunkedPayload.TruncatedBodyStored | assign6/payload.cc:46-61 | a body cut off within a chunk is stored as far as it goes, filled up with null bytes and ended |
| ChunkedPayload.StrictBodyStoredVerbatim | assign6/payload.cc:46-61 | a body in the grammar's own form is stored byte for byte |
| ChunkedPayload.StoredDecodesToData | assign6/payload.cc:46-61 | an independent decoder finds in the stored payload exactly the data that was sent |
| UnixFile.ReadSector | assign2/diskimg.c:15-18 | a whole sector, a short read that leaves the rest of the buffer, or an error |
| UnixFile.FieldsTileRecord | assign2/ino.h:31-41 | the fields of an inode tile its 32-byte record, so the record is recovered from them |
| UnixFile.RecordBits | assign2/inode.c:82-97 | size, allocation, format and addressing scheme in terms of the bytes and bits of the record |
| UnixFile.InodeTable | assign2/inode.c:12-33 | the inodes are the 32-byte records from byte 1024 of the image on, as many as fill `isize` sectors |
| UnixFile.InodeGet | assign2/inode.c:12-33 | -1 exactly for a number outside the inode area; otherwise the record at its place in the flat inode table |
| UnixFile.SlotOf | assign2/inode.c:42-80 | every block index within the scheme has an in-range slot from which the index can be recovered |
| UnixFile.SlotsAreIndices | assign2/inode.c:42-80 | distinct indices use distinct slots and every slot belongs to an index |
| UnixFile.LargeAlwaysFits | assign2/inode.c:50-79 | a 24-bit size never reaches the "too large" branch and the large scheme reaches every block |
| UnixFile.BlockOfIsListed | assign2/inode.c:42-80 | the block at an index is the one at that position of the flat list made of the direct blocks, or of the seven address blocks followed by those the eighth names |
| UnixFile.PartIsSlice | assign2/file.c:9-35 | what the loops read of a file is a slice of its sectors laid end to end |
| UnixFile.IndexLookup | assign2/inode.c:42-80 | -1 exactly beyond the scheme; otherwise the address kept in the index's slot |
| UnixFile.GetBlock | assign2/file.c:9-35 | returns the bytes of the block within the file, or -1 for a block beyond the size or the scheme or an unreadable sector |
| UnixFile.ChecksumByInumber | assign2/chksumfile.c:16-51 | succeeds if every block works, and only if the file is allocated and no block is beyond the scheme or in a failing sector; hashes exactly `inode_getsize` bytes that agree with the file wherever it can be read; for a readable file success is the same as fitting the scheme, and the bytes are the first ones of its sectors laid end to end |
| UnixFile.GetDirEntries | assign2/diskimageaccess.c:222-256 | the first min(max, size/16) entries in order, each the 16 bytes of the file at its place, the rest of the array untouched; only the blocks that hold them matter for success; and every error case |
| HTTPCacheModel.DirectoriesAreHashes | assign6/cache.cc:130-139 | requests share a directory exactly if they have the same hash |
| HTTPCacheModel.TTLOfMaxAge | assign6/response.cc:58-68 | the first max-age in the header, after spaces and with either sign, is the time to live, limited to an `int` |
| HTTPCacheModel.StorableWithMaxAge | assign6/response.cc:49-56 | with a max-age a response may be cached exactly if that is positive and none of the three words occurs anywhere in the header |
| HTTPCacheModel.NothingWithoutMaxAge | assign6/response.cc:49-68 | without one it may not |
| HTTPCacheModel.StoredIsUsable | assign6/cache.cc:65-128 | a response that may be cached can be used for at least a second after any run of operations that ends in storing it |
| HTTPCacheModel.NameRoundTrip | assign6/cache.cc:260-269 | the times printed into a file name are read back from it |
| HTTPCacheModel.Lifetime | assign6/cache.cc:245-249 | the least of the TTL and a non-negative max-age, and nothing for a negative TTL |
| HTTPCacheModel.HTTPCache.CacheEntry | assign6/cache.cc:111-128 | the hash's directory then holds exactly one file, named by the clock readings and the limited lifetime between "created@" and "expires@" |
| HTTPCacheModel.HTTPCache.ContainsCacheEntry | assign6/cache.cc:72-107 | never throws; answers by the entry's times and the max-age, and removes an expired entry with its directory |
| HTTPCacheModel.HTTPCache.CachedEntryIsValid | assign6/cache.cc:271-279 | compares the clock with the smaller of the printed expiry and the create time plus max-age |
| HTTPCacheModel.HTTPCache.EmptyCache | assign6/cache.cc:58-63 | leaves no entry |
| HTTPCacheModel.EntryIsLastStore | assign6/cache.cc:111-128 | over any run, an entry is what was last stored under its hash |
| HTTPCacheModel.HitsAreFreshLastStores | assign6/cache.cc:72-128 | over any run of stores, lookups, clears and max-age changes, a lookup hits exactly with the response last stored under the hash, exactly while no more than the least of its TTL and the max-ages has passed and nothing removed it |
| JobList.STSHJobList.AddJob | assign4/stsh-job-list.cc:16-19 | lists an empty job under the next number |
| JobList.STSHJobList.GetForegroundJob | assign4/stsh-job-list.cc:26-35 | finds a foreground job exactly if there is one |
| JobList.STSHJobList.GetJobWithProcess | assign4/stsh-job-list.cc:59-68 | finds a job holding the pid exactly if there is one |
| JobList.STSHJobList.Synchronize | assign4/stsh-job-list.cc:74-95 | a job with nothing running goes to the background, one with everything terminated leaves the list, no other job changes |
| JobList.UpdateJobListHelper | assign4/stsh.cc:273-280 | a report updates the one process it names and its job |
| Shell.NextKeepsInv | assign4/stsh.cc:184-501 | the invariant survives every command step and every report |
| Shell.NumbersAreKeys | assign4/stsh-job-list.cc:16-19 | a listed job's number is its key |
| Shell.NumbersNeverReused | assign4/stsh-job-list.cc:16-19 | over any run, new jobs get numbers above all earlier ones, and a job that has left never comes back |
| Shell.ListedExactlyWhileLive | assign4/stsh.cc:273-315 | a job is listed exactly while one of its processes is unreaped or it is still being made |
| Shell.LeavesWithLastProcess | assign4/stsh-job-list.cc:74-95 | a step removes a job exactly when it reports the end of the job's last process |
| Shell.AtMostOneForeground | assign4/stsh.cc:184-206 | at most one job is in the foreground, and none at the prompt |
| Shell.ForegroundGivenUpOnlyWhenIdle | assign4/stsh-job-list.cc:74-86 | a job leaves the foreground only on a report after which none of its processes runs |
| Shell.ForegroundHoldsThePrompt | assign4/stsh.cc:184-206 | after `fg` or a foreground command the prompt returns only once a report on a process of that job has left it gone or with nothing running |
| Shell.AttendsUntilIdle | assign4/stsh.cc:68-76 | the shell stops attending to a foreground job only on such a report, whatever steps and reports come before it |
| Shell.CreateJobEffect | assign4/stsh.cc:444-501 | from the command, whatever is reported before SIGCHLD is blocked: the new job holds its processes in pipeline order, all running; a background command leaves it in the background and is at the prompt again without any report, a foreground command leaves it in the foreground and waits; no other job changes |
| Shell.ResumeEffect | assign4/stsh.cc:184-206 | `bg` puts the job in the background and is at the prompt again, `fg` puts it in the foreground and waits; nothing else changes |
| Shell.PromptComesBack | assign4/stsh.cc:68-76 | once no job is in the foreground, at most three of the shell's own steps bring back the prompt and change nothing |
| Shell.ReportIsShown | assign4/stsh.cc:273-315 | a report shows in the one process it is about, and in the state or the removal of its job |
| Shell.WaitsOnlyForLiveJobs | assign4/stsh.cc:68-76 | the shell never sleeps for a job from which no report can come |
| ShellObject.Stsh.CreateJob | assign4/stsh.cc:444-446 | the start of `createJob` on the job list is the machine's step |
| ShellObject.Stsh.AddChild | assign4/stsh.cc:387-425 | `startProcess` in the parent is the machine's step |
| ShellObject.Stsh.ResumeJob | assign4/stsh.cc:184-206 | `fg` and `bg` of a listed job are the machine's step |
| ShellObject.Stsh.TestForeground | assign4/stsh.cc:68-76 | the test of `waitForForeground` is the machine's step |
| ShellObject.Stsh.UpdateJobList | assign4/stsh.cc:286-315 | one turn of the handler's loop is the machine's step |
| ShellObject.Stsh.Run | assign4/stsh.cc:184-501 | the objects follow every run exactly as the machine does |
| Decimal.SignedOfPrint | assign6/cache.cc:260-269 | a printed number is read back after spaces and with either sign, up to the first character that is no digit |
| Decimal.PrintThenParse | assign6/cache.cc:260-269 | a printed number is read back by `stoi` or `stol` |
| SignatureCache.CacheSignatures | assign3/trace-system-calls.cc:318-325 | writes one line for every name, each once, and the file loads back as the map when the names are words |
| SignatureCache.InputStream.LoadSignatures | assign3/trace-system-calls.cc:293-310 | reads by words, appends to existing entries, and fails exactly where `stoi` throws |
| SignatureCache.TypeName | assign3/trace-system-calls.cc:28-53 | every type, the unknown one included, is printed as a word that reads back as it |
| SignatureCache.LoadOfCache | assign3/trace-system-calls.cc:293-325 | loading a written file into an empty map gives back the map, in whatever order it was written |
| SignatureCache.LinesAreAppended | assign3/trace-system-calls.cc:293-310 | whatever the map held and however often a name occurs, each entry is extended by the types on its lines in order |
| SignatureCache.MissingTypesAreUnknown | assign3/trace-system-calls.cc:38-53 | a file that ends before all types of a line does not fail: the missing ones are unknown |
| SignatureCache.BadCountFails | assign3/trace-system-calls.cc:303-304 | a count that is no number ends the reading with an error |

## Left out

- DrainAndWait: takes the client's thread to be run again once the pool is idle, after a notification or spuriously, and so does `RunAll`; a client that missed the last notification otherwise sleeps until the next one (`ThreadPoolWakeup.NotificationMissed`).
- C++ memory-model races, and the lifetime of the reference that `popWork` returns.
- Finer interleavings of `updateArticle`, which drops its mutex between reading and writing; the check-then-insert of URLs in `processArticle`.
- `spawnAllWorkers`: a child may stop before its pid is recorded. The farm starts with all pids recorded and distinct.
- Farm lines on which `stoll` throws: the exception ends the program.
- Python 3 true division and floating-point square root in `factor.py`; the model uses exact integers.
- `directory_findname` and what is built on it.
- Inodes with a negative number and negative block indices, which index outside arrays in the source.
- Superblock and boot block checks, SHA itself: the hash is the sequence of bytes fed to it.
- The throwing paths of `createJob` and `resume`, which leave a job or the signal mask behind, and `sendSignal`. `Shell.StartKeepsInv` takes the pid of a new child to be one that no listed job still shows.
- Interruption of `addJob` itself by the handler: SIGCHLD is not yet blocked there, and the insertion into the map is taken to be one step.
- `handleRequest`, which adds headers between lookup and store, so that the two may see different hashes; the cache is modelled on its own, starting empty.
- Files placed in the cache directory by other programs, system-call failures, and the re-reading of a cached response's bytes: the file is represented by the response written to it.
- Overflow of a time plus a max-age, undefined in the source: times and max-ages are below 2^62 seconds.
- A `max-age=` with nothing after it leaves an uninitialised variable in the source: its value is a field of the response. The header's name is looked up by `header.cc`, which is not modelled.
- Sizes for which the chunk buffer cannot be made are one error; trailers of chunked bodies; string-utils.h (`trim`) is not part of this model and is taken to remove `isspace` characters at both ends.
- The semaphore library is not part of this model and is taken to be a counting semaphore.
- Header names are taken to be stored in lower case.
- `manageClientServerBridge`, strike-set regexes, regex-based scraping of kernel sources, the shell grammar, option parsing, logging, truncation for display, the assign tools and test programs: input/output, or easy members only.
