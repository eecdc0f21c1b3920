# Verified models of the systems programs

This project models eight components of the repository in Dafny and proves what they are for:
a thread pool, a search engine over a hand-packed binary index, a Unix Version 6 file system, a
MapReduce engine with its subprocess launcher, a job-control shell, a news aggregator, an HTTP
message model and a factoring worker. `dafny verify dfyconfig.toml` checks all of it.

Concurrent parts are step machines: a state, events that are one lock scope, semaphore operation,
signal delivery or system call each, an invariant, and theorems over all runs. Beside each machine
stands the code in its imperative form, a class or loop whose methods are proved to do to the fields
what the machine says. Sequential parts are methods with loops proved against a specification
function, and lemmas that say what that function means.

| component | files |
|---|---|
| shared | `Bytes` (byte strings, C strings, integers, strcmp order), `Words` (splitting text into words), `Text` (lines, decimal numbers), `Sorting`, `Totals` (counting threads), `Descriptors` (descriptor tables) |
| thread pool | `ThreadPool` (machine and invariant), `ThreadPoolInvariant`, `ThreadPoolTheorems`, `ThreadPoolClass`, `Semaphore` |
| review search | `TableFile` (count, offset table, chunks), `AmazonDatabase`, `AmazonIndex` (the two builders), `AmazonQuery`, `AmazonSearch` (the engine) |
| file system | `V6Format`, `V6Reader` (reading code), `V6Mkfs` (building code), `V6Tree` (trees and paths) |
| MapReduce | `MapReduce` (engine for any programs), `WordCount` (mapper, reducer), `KeyGrouping` (when sorting groups keys), `ReducerSums` (the reducer on keys and counts), `WordTotals` (end to end), `Subprocess` (one call), `SubprocessRuns` (many threads) |
| shell | `StshLex`, `StshParse`, `StshPlumbing` (pipes), `StshJobs` (machine and invariant), `StshJobsInvariant`, `StshJobsTheorems`, `StshJobList` |
| news aggregator | `Aggregator` (machine), `AggregatorInvariant`, `AggregatorTheorems`, `AggregatorProgress`, `AggregatorClass` |
| HTTP | `SockReader`, `HttpMessage` |
| factoring | `Factor` |

Conventions. Text is a sequence of bytes; integers in files are stored low byte first, as the byte
order of the machine has it. Integer widths are written out where they matter: 8-, 16-
and 32-bit fields of the files, 16-bit sector numbers, the 32-bit sum in the phrase match, the cast
of review numbers to `int`, the range of `long` in the reducer, `int` and `unsigned long` in the HTTP
parser. A thunk of the pool is known by a ticket, the number of its schedule() call. The log of the
pool records what has happened and influences no step.

Where code and documentation differ, the model follows the code:

- `mapreduce/mr.cc:135` says records are sorted by key, stably within a key, so that each key's
  records are grouped. The code sorts whole lines. Grouping then holds for records with tabs
  (`TabsSortGrouped`), and for arbitrary records exactly when no three of them split a key
  (`SortGroupsUnlessSplit`); `SortCanSplitAKey` gives three that do.
- `stsh/stsh-parse.cc:6-8` says that every stage is checked for a program. The code accepts lines
  whose last stage is empty, `ls |`, `ls | > out` and `ls | &` among them (`EmptyStagesAccepted`), and
  drops that stage. Every stage has a program if and only if a command word follows the last bar
  (`EveryStageHasCommand`).
- The comment of `subprocess` takes it for granted that dup2 installs the pipes as standard input and
  output. Standard input is installed if and only if descriptor 0 was open at the call, standard
  output if and only if 1 was open or input was requested too (`Spawn`); all runs with any number of
  threads are right if and only if both were open (`WiredIffStdioOpen`). `ClosedStdinLosesInput` and
  `ClosedStdoutLosesOutput` are tables that fail.
- Section 5.1 of RFC 9112 excludes blanks at both ends of a field value. The parser strips only
  those in front; the value stored is the standard's if and only if the line does not end in a blank
  or has nothing but blanks behind the colon (`ValueIsTrimmed`, `TrailingBlankKept`).
- `unix-v6-filesystem/mkfs_v6.c:64` promises to write the file contents. Of more than 7*256 blocks
  only the first 7*256 are written (`KeptWhole`, `MakeFile`, `LongFileCut`), and with 65536 sectors
  in use the superblock's size field wraps to 0 (`WriteSuperblock`, `FullDisk`).

## Model

| member | source | states |
|---|---|---|
| ThreadPoolInvariant.InitLive | thread-pool/thread-pool.cc:20-28 | A pool of any size starts within the invariant: thread positions, idle flags, tokens, queue, slots, `outstanding`, tickets and waiters all agree. |
| ThreadPoolInvariant.LiveKept | thread-pool/thread-pool.cc:30-92 | Every step of schedule, dispatcher, worker, wait and constructor, in any interleaving, keeps that invariant. |
| ThreadPoolInvariant.ScanFindsIdleWorker | thread-pool/thread-pool.cc:49-55 | When the dispatcher scans, an idle worker exists, so the scan claims the first one and never falls back on worker 0. |
| ThreadPoolInvariant.PopFindsTask | thread-pool/thread-pool.cc:57-62 | `front()` is never called on an empty queue. |
| ThreadPoolTheorems.SlotUntouched | thread-pool/thread-pool.cc:64-74 | No step of any thread changes a thunk slot between the moment it is announced and the end of its run. |
| ThreadPoolTheorems.OrderAndAtMostOnce | thread-pool/thread-pool.cc:57-65 | At every moment the thunks pushed are those dispatched, in the same order, followed by the queue; each starts at most once and finishes only if started. |
| ThreadPoolTheorems.NothingOutstanding | thread-pool/thread-pool.cc:82-85 | With `outstanding` at 0 the queue is empty, no schedule() call is under way, the dispatcher waits for work and every worker is parked. |
| ThreadPoolTheorems.ZeroMeansAllFinished | thread-pool/thread-pool.cc:82-91 | When `outstanding` is 0 every thunk ever scheduled has run exactly once. |
| ThreadPoolTheorems.WaitReturnsAfterAll | thread-pool/thread-pool.cc:89-92 | A `wait()` that returns does so on an idle pool whose scheduled thunks have all run exactly once. |
| ThreadPoolTheorems.NoWaiterForgotten | thread-pool/thread-pool.cc:82-92 | No lost wake-up: with nothing outstanding, no waiter is asleep and each can return at once. |
| ThreadPoolTheorems.OwedIsNat | thread-pool/thread-pool.cc:42-87 | The number of pool steps still owed is never negative and is 0 exactly when nothing is outstanding. |
| ThreadPoolTheorems.OwedStep | thread-pool/thread-pool.cc:30-87 | A schedule() call adds 18 steps to the work owed and pays one of them itself; every other pool step pays exactly one. |
| ThreadPoolTheorems.EighteenStepsPerThunk | thread-pool/thread-pool.cc:30-87 | Over any run the pool takes at most 18 steps per thunk scheduled plus what was owed, and has taken them all exactly when nothing is outstanding. |
| ThreadPoolTheorems.ProgressWhileOutstanding | thread-pool/thread-pool.cc:42-87 | With at least one worker and work outstanding, some pool step other than a new schedule() is enabled: no deadlock. |
| ThreadPoolTheorems.EmptyPoolNeverRetires | thread-pool/thread-pool.cc:20-28 | The bound of one worker is needed: a pool of size 0 never lowers `outstanding`. |
| ThreadPoolTheorems.SetDoneGoesDown | thread-pool/thread-pool.cc:94-96 | The destructor sets `done` only on a drained pool, which enters the shutdown invariant. |
| ThreadPoolTheorems.DownKept | thread-pool/thread-pool.cc:94-108 | Every later step keeps the shutdown invariant and runs no thunk. |
| ThreadPoolTheorems.ShutdownAdvances | thread-pool/thread-pool.cc:96-108 | During shutdown each step of owner, dispatcher or worker brings the end exactly one step nearer. |
| ThreadPoolTheorems.ShutdownNeverStuck | thread-pool/thread-pool.cc:96-108 | Until the last join has returned some thread can move: dispatcher and all workers exit and every join returns. |
| ThreadPoolTheorems.SafeStep | thread-pool/thread-pool.cc:20-108 | Every step keeps the pool in one of the two invariants, and never leaves the second. |
| ThreadPoolTheorems.RunsAreSafe | thread-pool/thread-pool.cc:20-108 | Over every run: never `front()` on an empty queue, an empty thunk called, or `outstanding` decremented below 0. |
| ThreadPoolTheorems.DestructorDropsNothing | thread-pool/thread-pool.cc:94-108 | When a run over the whole life of a pool ends destroyed, every scheduled thunk has run exactly once. |
| ThreadPoolObject.ThreadPool.ClaimIdleWorker | thread-pool/thread-pool.cc:49-55 | The scan loop clears the flag of the first idle worker and of no other, or returns the default 0. |
| ThreadPoolObject.ThreadPool.RetireThunk | thread-pool/thread-pool.cc:82-85 | The decrement under the lock wakes all sleepers exactly when it reaches 0. |
| ThreadPoolObject.ThreadPool.Step | thread-pool/thread-pool.cc:20-108 | Whatever thread moves next, the object keeps its invariant, reports no fault, and when destroyed has finished every thunk once. |
| ThreadPoolObject.ThreadPool.WaitReturns | thread-pool/thread-pool.cc:89-92 | The test in wait() returns only when all scheduled thunks have finished. |
| Semaphores.StepKeepsValid | thread-pool/semaphore.h:15-33 | Value plus completed waits equals initial value plus signals; while a thread sleeps, every available unit has a runnable thread coming for it. |
| Semaphores.NoLostWakeUp | thread-pool/semaphore.h:19-29 | If a thread has not got through and the value is positive, some thread can pass now without a further signal. |
| Semaphores.PassesAreBacked | thread-pool/semaphore.h:19-28 | No wait() returns without a unit that was there initially or signalled since. |
| Semaphores.RunsCountAndWake | thread-pool/semaphore.h:15-33 | Over every run of a new semaphore the value accounts for every unit, and while it is positive some waiting thread can pass without a further signal. |
| Words.WordsAreRuns | amazon-reviews/amazon.cc:43-53 | The words of a text are exactly its maximal alphanumeric runs, in order, without overlap, in lower case. |
| Words.RunsCover | amazon-reviews/amazon.cc:43-53 | Every alphanumeric character belongs to some word. |
| Words.SplitWords | amazon-reviews/amazon.cc:43-53 | The character loop computes the words. |
| Words.WordsOfConcat | amazon-reviews/mkamazondb.cc:36-46 | Cutting a text anywhere but inside a word cuts its list of words. |
| Bytes.LittleEndian | amazon-reviews/mkamazondb.cc:48-49 | The 16- and 32-bit integers of the files are stored low byte first, reduced to their width. |
| AmazonQuery.ConvertQuery | amazon-reviews/amazon.cc:55-76 | The cursor loop terminates on every query, balanced quotes or not, and computes its terms. |
| AmazonQuery.TermsFlatten | amazon-reviews/amazon.cc:55-76 | Read in order, the words of all terms are the words of the query. |
| AmazonQuery.TermsAreTerms | amazon-reviews/amazon.cc:55-76 | No term is empty and every word in it is a non-empty lower-case alphanumeric word. |
| AmazonQuery.UnquotedTerms | amazon-reviews/amazon.cc:67-73 | Without a quote every word is a term of its own. |
| AmazonQuery.QuotesGroup | amazon-reviews/amazon.cc:58-73 | A quoted phrase anywhere in a query, flush against a word or not, closed or left open, is one term of all its words; the words before it are terms of their own and what follows is a query of its own. |
| TableFile.EntryAt | amazon-reviews/mkamazondb.cc:101-106 | Entry k of the offset table of a written file leads to exactly the bytes of chunk k. |
| TableFile.Assemble | amazon-reviews/mkamazondb.cc:82-106 | The running-offset loop writes count, offset table and chunks in that order. |
| AmazonDatabase.BuildDatabase | amazon-reviews/mkamazondb.cc:79-107 | The database builder writes one record per review, each padded by its absolute offset, behind a matching offset table. |
| AmazonDatabase.RecordAt | amazon-reviews/amazon.cc:114-123 | A cursor walking over a written record meets its fields one by one, the year after a pad byte exactly when writer and reader both need one. |
| AmazonDatabase.GetReview | amazon-reviews/amazon.cc:107-125 | On a built database review i comes back field by field: its number, the four texts unchanged, rating, month and day modulo 256 and the year modulo 65536; i past the end gives false. |
| AmazonIndex.AddPlace | amazon-reviews/mkamazondb.cc:112-120 | Adding an occurrence to the ordered map keeps its keys strictly sorted and changes only the list of that word. |
| AmazonIndex.GatherKeywords | amazon-reviews/mkamazondb.cc:111-123 | The nested loops gather for every word exactly its occurrences in all fields of all reviews, in ascending order. |
| AmazonIndex.BuildIndex | amazon-reviews/mkamazondb.cc:109-149 | The index file holds, in alphabetical order, one entry per word with its sorted occurrence list. |
| AmazonIndex.EntryAtOffset | amazon-reviews/amazon.cc:153-165 | At the offset of an entry the reader finds the word, its length, the count behind the parity pad, and the packed list. |
| AmazonIndex.PlacesArePacked | amazon-reviews/mkamazondb.cc:117-119 | A place in the list of a word is a review, the number 0 to 3 of its title, category, headline or body in the high byte, and the number of the word there in the low 24 bits. |
| AmazonSearch.LowerBound | amazon-reviews/amazon.cc:146-150 | Binary search over the offset table with strcmp splits the keywords: all before it smaller, none from it on. |
| AmazonSearch.NoWrap | amazon-reviews/amazon.cc:197-200 | The 32-bit sum of the anchor offset and the word number reaches 2^24 before it can wrap. |
| AmazonSearch.WrappedIsPhrase | amazon-reviews/amazon.cc:197-200 | Testing every wrapped position for membership is the same as finding the phrase in the field. |
| AmazonSearch.Amazon.constructor | amazon-reviews/amazon.cc:79-99 | Opening either, both or none of the built files yields an engine that knows how many reviews and keywords they hold. |
| AmazonSearch.Amazon.GetReview | amazon-reviews/amazon.cc:107-125 | Review i of the built database, field by field; false past its end or when there is no file. |
| AmazonSearch.Amazon.FindKeyword | amazon-reviews/amazon.cc:140-167 | For any word, taken up to its first NUL: exactly the sorted list of its places, field 0 being the title, 1 the category, 2 the headline, 3 the body; false exactly when it occurs nowhere. |
| AmazonSearch.Amazon.MatchWord | amazon-reviews/amazon.cc:179-182 | A one-word term yields exactly the numbers, cast to int, of the reviews that contain the word in some field. |
| AmazonSearch.Amazon.MatchPhrase | amazon-reviews/amazon.cc:183-203 | A phrase yields exactly the numbers, cast to int, of the reviews in which its words stand consecutively in one field. |
| AmazonSearch.MatchesSomeText | amazon-reviews/mkamazondb.cc:112-120 | A term matches a review if and only if it is a slice of the words of its title, category, headline or body. |
| AmazonSearch.FoundInTexts | amazon-reviews/amazon.cc:169-218 | What the brute-force scan returns: the reviews in which every term of the query is a slice of the words of one of the four texts. |
| AmazonSearch.HitsAreCasts | amazon-reviews/amazon.cc:182 | The integers found are the numbers of the matching reviews read as 32-bit signed integers. |
| AmazonSearch.Amazon.SearchKeywordIndex | amazon-reviews/amazon.cc:169-218 | The search returns, ascending and without duplicates, exactly the review numbers that a brute-force scan for all terms returns, each cast to int; the cast changes nothing iff no review from number 2^31 on matches, and never when there is a database file. |
| V6Format.InodeReadBack | unix-v6-filesystem/inode.c:14-17 | An inode read back from its 32 bytes is the inode written. |
| V6Format.InodeLayout | unix-v6-filesystem/unixfilesystem.h:29-39 | Where each field of an inode is among its 32 bytes, low byte first. |
| V6Format.EntryLayout | unix-v6-filesystem/unixfilesystem.h:59-62 | A directory entry is the inumber, low byte first, and the 14 bytes of the name. |
| V6Format.NeighboursKept | unix-v6-filesystem/mkfs_v6.c:49-56 | Rewriting one inode slot leaves the other fifteen inodes of the sector as they were. |
| V6Format.EntriesReadBack | unix-v6-filesystem/mkfs_v6.c:123-131 | Entry k of a packed directory is read back as written. |
| V6Reader.SameNameIsCut | unix-v6-filesystem/directory.c:25-26 | The bounded comparison accepts two names exactly when they agree as cut to 14 characters. |
| V6Reader.BlockMap | unix-v6-filesystem/inode.c:28-64 | Block 256*k+j of a file is direct sector j, word j of indirect block k, or word j behind two levels of pointers for k from 7 on; -1 where a pointer block is missing or the number is too large. |
| V6Reader.PathStart | unix-v6-filesystem/pathname.c:6-13 | A path that does not start with a slash gives -1; `/` gives the root. |
| V6Reader.FileSystem.FileGetBlock | unix-v6-filesystem/file.c:6-22 | The buffer gets the block of the file and the result its byte count; on -1 the buffer is untouched. |
| V6Reader.FileSystem.DirectoryFindName | unix-v6-filesystem/directory.c:8-33 | The nested loops find the first used entry with that name over all blocks. |
| V6Reader.FileSystem.PathnameLookup | unix-v6-filesystem/pathname.c:6-31 | The cursor loop walks the components of the path, each cut to 14 characters, from the root. |
| V6Mkfs.BlockUnmoved | unix-v6-filesystem/inode.c:28-64 | A block of a file reads the same after writes above its sectors and to other inodes. |
| V6Mkfs.PlacedKept | unix-v6-filesystem/mkfs_v6.c:41-57 | Such writes change nothing the reader sees of a file made before. |
| V6Mkfs.SmallReads | unix-v6-filesystem/mkfs_v6.c:75-85 | A direct block map makes the reader return each block of the data, its byte count, and -1 past the end. |
| V6Mkfs.LargeLookup | unix-v6-filesystem/inode.c:37-48 | Through singly indirect blocks, block b resolves to its own sector, and a block past the end to none. |
| V6Mkfs.LargeReads | unix-v6-filesystem/mkfs_v6.c:86-112 | A file laid out behind indirect blocks is read back block by block as far as it was kept, and not beyond. |
| V6Mkfs.ReadWhole | unix-v6-filesystem/file.c:6-22 | Reading block after block until failure yields exactly the bytes written. |
| V6Mkfs.Mkfs.AllocData | unix-v6-filesystem/mkfs_v6.c:41 | The bump allocator hands out each sector once. |
| V6Mkfs.Mkfs.PutInode | unix-v6-filesystem/mkfs_v6.c:45-57 | The 32 bytes of the inode go to slot (i-1) mod 16 of sector 2 + (i-1)/16; every other inode and every data sector stays. |
| V6Mkfs.Mkfs.SmallFile | unix-v6-filesystem/mkfs_v6.c:75-85 | Up to 8 consecutive sectors hold the padded blocks; nothing below them changes. |
| V6Mkfs.Mkfs.IndirectGroup | unix-v6-filesystem/mkfs_v6.c:91-111 | One round of the outer loop writes up to 256 blocks followed by the block that points at them. |
| V6Mkfs.Mkfs.LargeFile | unix-v6-filesystem/mkfs_v6.c:86-112 | For any number of blocks above 8, the first 7*256 of them and their indirect blocks land on sectors of their own; the loop stops there. |
| V6Mkfs.Mkfs.MakeFile | unix-v6-filesystem/mkfs_v6.c:65-115 | The reader finds exactly the first 7*256 blocks of the data, which is all of it for smaller files, under an inode with the mode, one link and the full size, and still finds everything made before. |
| V6Mkfs.KeptWhole | unix-v6-filesystem/mkfs_v6.c:91 | What is kept of a file is the whole file if and only if it has at most 7*256 blocks. |
| V6Mkfs.LongFileCut | unix-v6-filesystem/mkfs_v6.c:91 | A file of 7*256 blocks and one byte loses the byte. |
| V6Mkfs.Mkfs.AddFile | unix-v6-filesystem/mkfs_v6.c:42 | A file made with a newly allocated inumber replaces nothing made before. |
| V6Mkfs.Mkfs.MakeDir | unix-v6-filesystem/mkfs_v6.c:118-141 | The directory holds `.`, `..` and the entries, under an inode with the directory mode, two links and their size, and everything made before stays readable. |
| V6Mkfs.Mkfs.WriteSuperblock | unix-v6-filesystem/mkfs_v6.c:210-215 | `s_isize` is 4 and `s_fsize` the number of sectors written, modulo 65536; every sector written lies below it if and only if there are fewer than 65536 of them. |
| V6Mkfs.FullDisk | unix-v6-filesystem/mkfs_v6.c:213-215 | A sequence of make_file calls that uses all 65536 sectors, after which the superblock records the size 0. |
| V6Tree.BuildTree | unix-v6-filesystem/mkfs_v6.c:161-208 | Building bottom-up puts the whole tree on the disk and keeps what other inumbers held. |
| V6Tree.DirectorySearch | unix-v6-filesystem/directory.c:17-32 | Searching a stored directory, whatever its number of blocks, finds its first used entry with that name. |
| V6Tree.FirstEntry | unix-v6-filesystem/directory.c:23-30 | That is the first entry whose inumber is not 0 and whose name agrees in its first 14 characters; none if there is no such entry. |
| V6Tree.LookupMatchesTree | unix-v6-filesystem/pathname.c:6-31 | Every path, with dots, repeated slashes and over-long names, resolves on the image as it does in the tree. |
| V6Tree.NodePaths | unix-v6-filesystem/pathname.c:9-30 | The path of a node gives its inumber, and a path that names no node gives -1. |
| V6Tree.ChildFoundByName | unix-v6-filesystem/directory.c:23-30 | Among names that differ as cut to 14 characters every child is found under its own. |
| V6Tree.DotDotIsParent | unix-v6-filesystem/mkfs_v6.c:120-127 | In the tree `..` from any directory leads back to the directory that lists it. |
| V6Tree.DotsInPaths | unix-v6-filesystem/mkfs_v6.c:124-127 | On the image, `.` behind the path of a directory leads to that directory and `..` to the one that lists it; `..` of the root is the root. |
| V6Tree.LongTailsIgnored | unix-v6-filesystem/pathname.c:17-23 | Only the first 14 characters of each component matter. |
| V6Tree.ExtraSlashesIgnored | unix-v6-filesystem/pathname.c:13-14 | Doubled slashes and a trailing slash change nothing. |
| V6Tree.BuildAndLookup | unix-v6-filesystem/mkfs_v6.c:151-215 | From an empty image: build any tree, then any path gives what the tree says. |
| MapReduce.SplitIntoChunks | mapreduce/mr.cc:93-94 | Chunk c holds, in order, the lines whose number is c modulo M. |
| MapReduce.ChunkAt | mapreduce/mr.cc:93-94 | Line j of chunk c is line c + j*M of the input, as far as there is one, and the chunk has no others. |
| MapReduce.IdleWorkers | mapreduce/mr.cc:103-105 | With fewer lines than mappers the mappers left over are not run, nor is the reducer of an empty partition. |
| MapReduce.Route | mapreduce/mr.cc:109-119 | Local buffer r holds, in order, the non-empty records whose key hashes to r. |
| MapReduce.RoutedIsFilter | mapreduce/mr.cc:115-118 | Each record goes to the buffer of its key, with its multiplicity, and to no other. |
| MapReduce.GatherOrder | mapreduce/mr.cc:120-124 | The order in which mappers get the lock does not change the multiset of a partition. |
| MapReduce.Merge | mapreduce/mr.cc:120-124 | The locked appends concatenate the local buffers in the order the locks were taken. |
| MapReduce.ReducePartition | mapreduce/mr.cc:135-147 | The reducer gets the partition's records sorted as whole lines, and is not run on nothing. |
| MapReduce.Run | mapreduce/mr.cc:93-155 | For any mapper, reducer, M, R, hash and merge orders, part r is the reducer's output on exactly the emitted records of hash r, sorted. |
| Sorting.SortSorts | mapreduce/mr.cc:141 | Sorting yields a sorted permutation. |
| Sorting.SortedIsUnique | mapreduce/mr.cc:141 | There is only one, so which algorithm sorts does not matter. |
| KeyGrouping.TabsSortGrouped | mapreduce/mr.cc:135-143 | Whole-line order makes records with equal keys contiguous whenever every record has a tab. |
| KeyGrouping.SortGroupsUnlessSplit | mapreduce/mr.cc:135-143 | For arbitrary records keys come out contiguous if and only if no bare key, longer line and tabbed record split a key. |
| KeyGrouping.SortCanSplitAKey | mapreduce/mr.cc:135-136 | Three short lines for which the grouping promised in the comment fails. |
| WordCount.Mapper | mapreduce/mapper.cc:13-27 | The character loop writes one record `word\t1` per word of its input, in order. |
| WordCount.Reducer | mapreduce/reducer.cc:13-34 | The line loop writes one line per run of equal keys with the sum of their counts, or aborts on a count that does not parse or does not fit a long. |
| WordCount.GroupedSums | mapreduce/reducer.cc:24-32 | On grouped records every key gets exactly one line, holding the sum of all its counts. |
| WordCount.StolReadsBack | mapreduce/reducer.cc:22-25 | A total printed reads back as itself if it fits a long, and throws otherwise. |
| WordCount.StolReads | mapreduce/reducer.cc:22 | stol takes leading blanks, an optional sign, digits and anything behind them, and throws if the number does not fit a long. |
| WordCount.StolThrows | mapreduce/reducer.cc:22 | It throws on every other text. |
| ReducerSums.RecordContributes | mapreduce/reducer.cc:20-22 | A record `key<tab>count` contributes its count to its key, for every count in the range of long; a record without a tab contributes 1 to the whole line. |
| ReducerSums.ReducerTotals | mapreduce/reducer.cc:18-32 | For every list of keys with or without counts in which equal keys stand together, the output is one line per key, in the order of the keys, with the sum of the counts of that key. |
| ReducerSums.SortedTotals | mapreduce/reducer.cc:18-32 | In particular for every list of keys with counts whose records are sorted as lines. |
| WordTotals.ChunksKeepWords | mapreduce/mr.cc:93-94 | Chunking loses and repeats no word, whatever M. |
| WordTotals.WordsOfText | mapreduce/mr.cc:86-94 | Splitting the text into lines splits its words. |
| WordTotals.PartIsCounted | mapreduce/mr.cc:137-147 | What the reducer makes of a partition lists each word of that hash once with its true count. |
| WordTotals.CountWords | mapreduce/mr.cc:72-155 | End to end, for every input, M, R, hash and merge orders: part r has exactly one line per distinct word of hash r, with its number of occurrences. |
| WordTotals.WordsInOnePart | mapreduce/mr.cc:115-118 | Every word appears in the part of its hash and in no other. |
| Subprocess.Spawn | mapreduce/subprocess.cc:27-80 | One undisturbed call from any descriptor table: standard input is the supply pipe iff 0 was open, standard output the ingest pipe iff 1 was open or input was requested too; everything else is inherited, and the caller keeps only the opposite ends, close-on-exec. |
| Subprocess.OpenPipes | mapreduce/subprocess.cc:36-42 | The requested pipes get, one after the other, the lowest descriptors not in use, all close-on-exec. |
| Subprocess.WireChild | mapreduce/subprocess.cc:50-61 | From any table the dup2 and close calls leave the child with what it inherited and those of its two ends that can be installed, and no other pipe end. |
| Subprocess.ClosedStdinLosesInput | mapreduce/subprocess.cc:50-55 | A table without descriptor 0, from which a child that asks for input starts without standard input. |
| Subprocess.ClosedStdoutLosesOutput | mapreduce/subprocess.cc:56-61 | A table without descriptor 1, from which a child that asks for output only starts without standard output. |
| SubprocessRuns.StepKept | mapreduce/subprocess.cc:36-79 | Every system call of every thread and child, in any interleaving, keeps the descriptor invariant. |
| SubprocessRuns.ExecdTable | mapreduce/subprocess.cc:27-62 | In every run each exec'd program starts with exactly the inherited descriptors and its own two pipe ends, no end of another call. |
| SubprocessRuns.WiredIffStdioOpen | mapreduce/subprocess.cc:48-62 | Every run wires every child as it should if and only if descriptors 0 and 1 are open to begin with. |
| SubprocessRuns.SupplyEndsInRuns | mapreduce/subprocess.cc:28-35 | In every run, once all forks in flight have exec'd, a supply pipe has a writer if and only if the caller still holds supplyfd. |
| SubprocessRuns.IngestEndsInRuns | mapreduce/subprocess.cc:28-35 | In every run, likewise, an ingest pipe has a writer if and only if its own child still runs. |
| SubprocessRuns.NothingLeaksInRuns | mapreduce/subprocess.cc:70-79 | In every run, when all calls have returned and their results are closed, the table is the original one. |
| StshLex.Lex | stsh/stsh-parse.cc:17-35 | The character loop computes the tokens. |
| StshLex.TokensAreTokens | stsh/stsh-parse.cc:17-35 | Every token is one operator or a non-empty word without blanks and operators. |
| StshLex.LexConcat | stsh/stsh-parse.cc:23-33 | Cutting a line at a blank or operator cuts its tokens. |
| StshLex.OperatorsStandAlone | stsh/stsh-parse.cc:26-28 | An operator written flush against its neighbours is a token of its own. |
| StshLex.LexOfJoin | stsh/stsh-parse.cc:17-35 | Lexing undoes joining tokens with blanks. |
| StshParse.ParsePipeline | stsh/stsh-parse.cc:43-83 | The token loop computes the pipeline, or the first error. |
| StshParse.WellFormedParses | stsh/stsh-parse.cc:53-81 | A line read as items parses to the meaning of the items, or fails for want of a command. |
| StshParse.AcceptsWellFormed | stsh/stsh-parse.cc:43-83 | The parser accepts exactly the lines that some well-formed sequence of items spells. |
| StshParse.FirstError | stsh/stsh-parse.cc:53-80 | A line is rejected with a given error if and only if it starts with items that may stand there and goes on in the way the error names, or ends with a redirection but no command. |
| StshParse.StagesAtBar | stsh/stsh-parse.cc:55-58 | Bars cut a line into its stages. |
| StshParse.StageIsItsWords | stsh/stsh-parse.cc:72-74 | A stage is its words in order, wherever redirections stand among them. |
| StshParse.LastFileCounts | stsh/stsh-parse.cc:59-68 | Of several redirections of one kind the last one counts. |
| StshParse.AcceptedCommands | stsh/stsh-parse.cc:55-58 | Every accepted line has only non-empty argument vectors of operator-free words, and a redirection only with a command. |
| StshParse.EveryStageHasCommand | stsh/stsh-parse.cc:6-8 | Every stage of an accepted line has a command, and there is one command per stage, if and only if a command word follows the last bar. |
| StshParse.TrailingBar | stsh/stsh-parse.cc:77-79 | A bar at the end of an accepted line that ends in a command changes nothing. |
| StshParse.EmptyStagesAccepted | stsh/stsh-parse.cc:53-81 | The three lines `ls |`, `ls | > out` and `ls | &` are accepted, each with one command for two stages. |
| StshParse.PrintParses | stsh/stsh-parse.cc:43-83 | Printing any pipeline of plain words and parsing the line returns the same pipeline. |
| StshPlumbing.RunStage | stsh/stsh.cc:323-335 | The child's calls leave it reading its pipe or input file and writing its pipe or output file, and nothing else changed. |
| StshPlumbing.RunPipeline | stsh/stsh.cc:292-347 | For any number of stages: descriptor by descriptor what each stage runs with (input file, pipe ends, output file, everything else as the shell has it), its process group, and the shell's own table exactly as before. |
| StshPlumbing.StageIsPlumbed | stsh/stsh.cc:323-335 | Descriptor 0 of stage i is the input file iff i is 0 and there is one, and the read end of pipe i-1 iff i > 0; descriptor 1 likewise for output; no other descriptor holds either; every other one is the shell's own unless close-on-exec. |
| StshPlumbing.TwoStagesNeedStdio | stsh/stsh.cc:323-345 | Of two stages the first writes the pipe iff descriptor 1 was open in the shell, and the second reads it iff 0 was. |
| StshPlumbing.StageHolds | stsh/stsh.cc:323-347 | Stage i holds the read end of pipe i-1, the write end of pipe i, and no other pipe end. |
| StshPlumbing.EndOfFileSpreads | stsh/stsh.cc:323-347 | Whichever stages are still alive, a pipe has a writer exactly while the stage before it lives. |
| StshJobsInvariant.StepKept | stsh/stsh.cc:158-364 | Every step of the shell, of the handler wherever SIGCHLD is open, and of the children keeps the job-control invariant. |
| StshJobsInvariant.ReapFinds | stsh/stsh.cc:162-164 | The handler always finds the reported process: no child is reaped before it is listed. |
| StshJobsInvariant.CheckDemotes | stsh/stsh.cc:195-200 | A listed job that the wait loop leaves is stopped, so it is moved to the background. |
| StshJobsTheorems.JobTableOfRuns | stsh/stsh.cc:77-124 | In every run: listed jobs have a live process, numbers are unique and within the counter, at most one job is in the foreground, and at the prompt none is and fgPgid is 0. |
| StshJobsTheorems.RecordsAreTrue | stsh/stsh.cc:158-173 | In every run a process without an unreported change is recorded in its true state, except between markGroupRunning and the SIGCONT. |
| StshJobsTheorems.DrainedTableIsTrue | stsh/stsh.cc:162-172 | Once the handler has drained the queue no zombie is left and every child is listed in its true state. |
| StshJobsTheorems.NoLostWakeUp | stsh/stsh.cc:187-193 | A suspended shell whose foreground job no longer runs has a SIGCHLD pending. |
| StshJobsTheorems.WorkFalls | stsh/stsh.cc:158-205 | Each step of the shell or its handler during a wait leaves less to do. |
| StshJobsTheorems.ForegroundReturns | stsh/stsh.cc:187-205 | Once no child of the foreground job runs, the shell's and handler's own steps lead back to the prompt. |
| StshJobsTheorems.WaitIsBounded | stsh/stsh.cc:187-205 | No run of such steps is longer than the work there was. |
| StshJobsTheorems.ResumeRecords | stsh/stsh.cc:226-229 | fg and bg record every stopped process of the job as running; other states, other jobs and the rest of the shell stay. |
| StshJobsTheorems.ContinuedJob | stsh/stsh.cc:249-255 | After SIGCONT no process of the job is stopped, other running or dead children are as before, and the job is in the foreground for fg only. |
| StshJobsTheorems.WaitTest | stsh/stsh.cc:192-201 | The test of the wait loop suspends if and only if some process of the awaited job is recorded as running; otherwise the job goes to the background, if still listed, and nothing else changes. |
| StshJobsTheorems.ForegroundSuspends | stsh/stsh.cc:243-260 | fg on any listed job: unless a report comes first, the shell suspends with that job in the foreground. |
| StshJobsTheorems.BackgroundReturns | stsh/stsh.cc:243-252 | bg on any listed job: the shell is back at its prompt, the job in the background and recorded as running. |
| StshJobsTheorems.LaunchedJob | stsh/stsh.cc:349-362 | A pipeline gets the next number, its first process leads the group, all its processes run, and the shell waits for it or prompts as & says. |
| StshJobsTheorems.PipelineSuspends | stsh/stsh.cc:358-362 | A pipeline without &: unless a report comes first, the shell suspends until it stops or ends. |
| StshJobsTheorems.NumbersStartOver | stsh/stsh.cc:204 | Once no job is listed at the end of a wait, the next job gets number 1; otherwise numbering goes on. |
| StshJobList.JobList.GetJobByPgid | stsh/stsh.cc:97-101 | The loop returns the first job with that group. |
| StshJobList.JobList.GetJobWithProcess | stsh/stsh.cc:102-107 | The nested loops return the first job that lists the process. |
| StshJobList.JobList.AddJob | stsh/stsh.cc:349-359 | The job is listed with the next number and all processes running; a foreground job sets fgPgid. |
| StshJobList.JobList.HandleReport | stsh/stsh.cc:163-171 | One round of the handler records the state and removes the job when all its processes have terminated. |
| StshJobList.JobList.MarkGroupRunning | stsh/stsh.cc:226-249 | fg and bg mark exactly the stopped processes of the job as running. |
| StshJobList.JobList.MoveJob | stsh/stsh.cc:250-257 | bg leaves the job in the background, fg makes it the foreground job. |
| StshJobList.JobList.WaitCheck | stsh/stsh.cc:192-201 | One test of the wait loop suspends, or demotes a stopped job and clears fgPgid. |
| AggregatorTheorems.StepKept | news-aggregator/aggregate.cc:65-104 | Every step of every feed and article task, in any interleaving, keeps the invariant. |
| AggregatorTheorems.AtMostEight | news-aggregator/aggregate.cc:49-54 | In every run no more than 8 feed and article downloads from one host are ever in progress. |
| AggregatorTheorems.SlotsReturned | news-aggregator/aggregate.cc:71-75 | When both waits have returned every host has its 8 slots back. |
| AggregatorTheorems.ArticlesAreTheLinks | news-aggregator/aggregate.cc:65-104 | When both waits have returned there is exactly one article per distinct link listed by a fetched feed whose own text has words. |
| AggregatorTheorems.IndexCounts | news-aggregator/aggregate.cc:78-91 | The index then holds for every word and article exactly the number of occurrences, and nothing else. |
| AggregatorProgress.NeverStuck | news-aggregator/aggregate.cc:71-75 | With 8 feed and 24 article threads that take tasks in order: until both waits have returned, a task that has a thread can go on, or a free thread can take the next task. |
| AggregatorProgress.ThreadsSuffice | news-aggregator/aggregate.cc:149 | In every run at most 8 feed tasks and 24 article tasks are under way. |
| AggregatorProgress.WorkFalls | news-aggregator/aggregate.cc:65-104 | Every step of every thread leaves less to do. |
| AggregatorProgress.EveryRunFinishes | news-aggregator/aggregate.cc:148-154 | Every run ends: its length is bounded by the feed list and its items, and a run that can go no further has passed both waits. |
| AggregatorInvariant.NotYetIndexed | news-aggregator/aggregate.cc:66-69 | No article is folded into the index twice. |
| AggregatorTables.CountWords | news-aggregator/aggregate.cc:78-79 | The loop counts the occurrences of every word. |
| AggregatorTables.NewsAggregator.FoldCounts | news-aggregator/aggregate.cc:88-91 | One pass over the counts adds each to its own entry and touches no other. |
| SocketReading.SockReader.ReadLine | http-proxy/http.cc:23-39 | Returns the next line without its CRLF, the last one as it is, or false at the end, and leaves exactly the bytes behind it. |
| SocketReading.BareLine | http-proxy/http.cc:25-30 | A line ended by a bare newline is returned whole, unless it ends in a carriage return. |
| SocketReading.CrlfLine | http-proxy/http.cc:25-30 | A line ended by carriage return and newline is returned without the two. |
| SocketReading.UnendedLine | http-proxy/http.cc:32-37 | At the end of input a last line without newline is returned as it is, and no line if there is nothing left. |
| SocketReading.SockReader.ReadExactly | http-proxy/http.cc:41-48 | Appends n bytes, or what there is, and leaves the rest. |
| SocketReading.SockReader.ReadUntilEOF | http-proxy/http.cc:50-57 | Appends all bytes to come and leaves none. |
| SocketReading.SameBytesSameAnswers | http-proxy/http.cc:15-57 | Any sequence of read calls gives the same results however the same bytes are cut into reads. |
| HttpMessage.WithoutRemoves | http-proxy/http.cc:85-92 | Removing a name leaves no header of that name in any letter case, and lookups of other names as they were. |
| HttpMessage.GetAdded | http-proxy/http.cc:101-106 | A name added where none was is what a lookup finds. |
| HttpMessage.GetIsFirst | http-proxy/http.cc:101-106 | A lookup gives the value of the first header of that name, in any letter case. |
| HttpMessage.HTTPHeader.Parse | http-proxy/http.cc:67-79 | Header lines up to the blank line are added in order; lines without a colon are skipped. |
| HttpMessage.HTTPHeader.Remove | http-proxy/http.cc:85-92 | Erases exactly the headers of that name. |
| HttpMessage.ValueIsTrimmed | http-proxy/http.cc:71-77 | The stored value has no blank at either end, as section 5.1 of RFC 9112 has it, if and only if the line does not end in a blank or has only blanks behind the colon. |
| HttpMessage.TrailingBlankKept | http-proxy/http.cc:73-76 | A line whose value is stored with the blank behind it. |
| HttpMessage.HeadersBack | http-proxy/http.cc:67-112 | Parsing a printed header block gives the headers back and stops behind the blank line. |
| HttpMessage.BlockParses | http-proxy/http.cc:67-79 | A block whose lines end in a bare newline or in CRLF, with any blanks in front of values and lines without a colon among them, gives its fields in order and leaves what follows the blank line. |
| HttpMessage.BlockCutOff | http-proxy/http.cc:67-79 | A stream that ends before the blank line gives the fields sent so far. |
| HttpMessage.StrtoulReads | http-proxy/http.cc:181 | Blanks, a sign or none, digits, anything: the number, saturated at 2^64-1, or its negation modulo 2^64. |
| HttpMessage.StatusBack | http-proxy/http.cc:171-178 | Parsing a printed status line gives protocol, code and reason back. |
| HttpMessage.StatusReads | http-proxy/http.cc:174-177 | A status line, however spaced: the protocol, the code clamped to int, and what follows it as the reason without one blank; without anything behind the code, or with one that does not fit, the reason stays. |
| HttpMessage.StatusStops | http-proxy/http.cc:174-177 | Without a number the code becomes 0 or stays, without a word the protocol stays, and so does the reason. |
| HttpMessage.BodyLength | http-proxy/http.cc:193-197 | After setBody the one Content-Length header is the size of the body. |
| HttpMessage.HTTPResponse.SetBody | http-proxy/http.cc:193-197 | Stores the body and replaces every Content-Length header by one. |
| HttpMessage.HTTPResponse.TakeStatus | http-proxy/http.cc:174-177 | Extraction stops at the first word or number that is missing and leaves the other fields alone. |
| HttpMessage.HTTPResponse.IngestFrom | http-proxy/http.cc:171-186 | What is stored and what is left unread depends only on the bytes of the stream. |
| HttpMessage.IngestReads | http-proxy/http.cc:171-186 | A response with lines ended either way: its status, its fields behind those already there, and as much body as Content-Length says and the stream has, or all of it without one. |
| HttpMessage.ResponseRoundTrip | http-proxy/http.cc:171-206 | Reading back a serialized response whose body was set with setBody restores it and leaves the following bytes unread. |
| HttpMessage.NoLengthReadsAll | http-proxy/http.cc:183-185 | Without a Content-Length the body is everything up to the end of the stream. |
| Factor.Factorize | multiprocessing/factor.py:19-33 | For n >= 2 the result is a nondecreasing list of primes with product n; 0 and 1 give themselves, negative n nothing. |
| Factor.EvenSkipped | multiprocessing/factor.py:30 | Skipping even divisors after 2 misses none. |
| Factor.RemainderIsPrime | multiprocessing/factor.py:26-32 | What is left when d*d > m is prime. |
| Factor.FactorsAreUnique | multiprocessing/factor.py:19-33 | Only one nondecreasing list of primes has a given product, so the result is the prime factorization. |

## Left out

- ThreadPoolTheorems.RunsAreSafe: assumes that no thunk calls wait() and that no thread outside the pool calls schedule() while the destructor runs; both would break the promises of the header. Memory is sequentially consistent and thread creation succeeds.
- ThreadPoolTheorems.EighteenStepsPerThunk: bounds the steps of a run; that an enabled thread eventually runs is left to the scheduler.
- Semaphores.NoLostWakeUp: spurious wake-ups are steps of the model; the mutex is represented by making each critical section one step.
- AmazonDatabase.GetReview: fields contain no NUL and the file is smaller than 4 GB, as the format demands; numbers wider than their fields come back reduced.
- AmazonSearch.Amazon.SearchKeywordIndex: fields have fewer than 2^24 words and files are smaller than 4 GB, as the packing of locations and offsets demands.
- AmazonSearch.Amazon.constructor: takes the contents of the files; opening and mapping them is not modelled, and a read past the mapped bytes yields 0.
- V6Mkfs.Mkfs.MakeFile: inumbers 1 to 64, file sizes below 2^24 (the inode has 24 bits for them), at most 65536 sectors in all. Reading doubly indirect blocks is modelled in the reader.
- V6Mkfs.Mkfs.MakeDir: at most 30 entries besides `.` and `..`; with more the code writes past its one-sector buffer, which C leaves undefined.
- MapReduce.Run: a program is a function from its input to its output; failing system calls are not modelled.
- WordCount.Reducer: sums are unbounded integers, since C++ leaves the overflow of a long undefined; what an aborting run has already written is not modelled.
- Subprocess.Spawn: pipe2, fork and exec succeed, and the caller holds no pipe end of the same call before it.
- SubprocessRuns.ExecdTable: stated for descriptors 0 and 1 open, which `WiredIffStdioOpen` shows to be needed; inherited descriptors are files rather than pipes made by the calls of the run.
- StshPlumbing.RunPipeline: pipe, fork and the opening of redirection files succeed; descriptors 0 and 1 are open in the shell, which `TwoStagesNeedStdio` shows to be needed.
- StshJobsInvariant.StepKept: the pid of a new child differs from every pid and group in the table, as long as those are listed; pid reuse by the kernel is not modelled. A change the kernel reports is the latest one of that process.
- StshParse.PrintParses: words contain no blanks and no operator characters, which the shell has no way to quote.
- AggregatorTheorems.ArticlesAreTheLinks: fetching, parsing and tokenizing are functions of the URL; a pool hands its tasks to threads in the order in which they were scheduled, and its wait returns when all have ended, as proved for the thread pool.
- HttpMessage.ResponseRoundTrip: the status fields and headers must be such as a line can carry (no newline, no blank in the protocol, no colon in a name, no leading blank in a value).
- Factor.Factorize: takes an integer; conversion from text and the self-halting protocol are not modelled.
- Sockets, DNS, terminal control, logging, option parsing and the display of query results: I/O without further properties.
- TSV reading in the index builder, URL parsing, requests and the blocklist of the proxy: shallow.
- The proxy's cache and its expiry rule: time is external and the properties are local.
- `multiprocessing/farm.cc`: its counter and worker list change while SIGCHLD is open, so the natural invariant holds only under an atomicity the code does not provide.
- `multiprocessing/subprocess.cc` and `pipeline.cc`: subsumed by the MapReduce launcher and the shell's pipelines.
- The shell's `jobs`, `slay`, `halt` and `cont`: they change no state of the shell; the signals they send are among the child events of the model.
