# NaviServer core, verified in Dafny

This project models the parts of NaviServer's `nsd` directory that are hardest
to get right by reading: buffers filled and drained in pieces, lists relinked in
place, an in-place cipher, a one-pass compiler, and protocols between threads
that drop their lock in the middle of an operation. `dafny verify dfyconfig.toml`
checks the whole of it.

| file | models |
|---|---|
| `Basics.dfy`, `Bytes.dfy`, `Hex.dfy` | options, byte strings, memmove, memcpy, `%lx` and `strtol` |
| `Chunked.dfy` | the incremental decoder of chunked bodies, in place in a request's buffer |
| `ConnOutput.dfy` | the connection flags and the chunks written by `Ns_ConnWriteVData` and `Ns_ConnClose` |
| `RequestAssembly.dfy` | `SockRead` and `SockParse`: a request put together from any fragments, in memory or in a temporary file |
| `DesTables.dfy`, `Des.dfy`, `DesCrypt.dfy` | the tables, the cipher as functions, and the array code of `nsd/crypt.c` |
| `CacheSpec.dfy`, `CacheLaws.dfy`, `Cache.dfy` | the cache as a recency list, its laws, and the code over a hash table and a doubly linked list |
| `DnsLookup.dfy`, `FastPath.dfy` | two clients of the cache in every interleaving, on top of `CacheSpec` |
| `AdpParse.dfy` | the ADP compiler, its block table and the walk over it |
| `AdpPages.dfy`, `AdpPageRuns.dfy`, `AdpPageFaults.dfy` | the shared table of ADP pages and cached results in every interleaving, nested includes too |
| `AdpPageObjs.dfy`, `AdpPageExact.dfy`, `AdpPageCases.dfy` | the objects kept for scripts; exactly when an interpreter page, a page, a cached result or its objects are used after they were freed, with runs that do |
| `WriterJob.dfy` | file jobs of the writer thread |
| `AsyncLog.dfy`, `AsyncOrder.dfy`, `AsyncWriter.dfy` | the asynchronous log writer: what is written, exactly when it is in order, and the code |
| `DriverLists.dfy`, `DriverCount.dfy`, `DriverThread.dfy` | the driver's socket lists and its unlocked count, with hand-offs and releases by other threads; the loops of the driver thread |
| `EncodingTable.dfy` | the load-once table of encodings in every interleaving |

## How it is built

Code that updates objects, buffers or arrays is a class or a method with loops,
proved against a specification function on values (`Decode`, `Crypt`, `Set`,
`Events`, `Scan` and so on); the laws are lemmas about those functions. The
specification functions are not copies of the loops: `AdpParse.Events` gives a
page's meaning character by character without any table, `DesCrypt.KeySchedule`
selects key bits directly without rotating anything, `CacheSpec` is a plain list
ordered by recency, `RequestAssembly.HeadOf` reads the whole stream at once.

A protocol is a `State`, a `Step` and a total function `Take`; `Run` takes any
sequence of steps of any number of threads. A step is what happens while the lock
is held; a step that is not enabled changes nothing. Using something that was
freed sets the flag `dangling`, which is proved never to be set, or for nested ADP
includes exactly when it is set. Answers of the
system (how much a read or write moved, what a parser or resolver said, what has
expired) are parameters of steps and methods, so that the theorems hold for all
of them.

Where a property that one would expect does not hold of the code, the model keeps
the code, shows an input and states exactly when the property holds:

- The decoder of chunked bodies compares addresses, and a negative size makes the
  sum wrap, so that the size passes the test. Copies stay inside the buffer exactly
  if no negative size within reach of the buffer's address is met
  (`Chunked.InsideExactly`); the size line `-1` is one (`Chunked.MinusOne`).
- A comment in `SockParse` says that up to two blank lines before a request are
  eaten. The branch tests for an empty buffer, which cannot be empty there, so a
  leading blank line ends the head and the request is refused
  (`RequestAssembly.LeadingBlankLine`, `RequestAssembly.Sock.Finish`).
- A script that includes its own page after the file was changed, or that makes the
  interpreter's cache drop the page, frees what the including call still uses
  (`AdpPageCases.NestedChange`). A cached result that includes its own page when a
  newer result is there or due frees the objects of its own scripts, which its next
  script uses (`AdpPageCases.NestedRebuild`). Runs in which all calls end use nothing
  after it was freed exactly if no step frees an interpreter page of a suspended
  call, and no call whose objects were freed while it was suspended starts another
  script (`AdpPageExact.SafeExactlyIfCareful`).
- `FreeInterpPage` frees the objects of a cached result also where there are none:
  exactly if the last interpreter page of a page with a cached result never took one
  (`AdpPageExact.NullObjsExactly`, `AdpPageCases.NullObjsReached`).
- Leftovers of partial log writes are pushed in reverse and behind fresh records. A
  descriptor's bytes are in order exactly if two guards hold
  (`AsyncOrder.OrderedExactlyIfGuarded`). Every byte is still written once
  (`AsyncLog.EveryByteOnce`).
- The driver's queue size is changed without a lock. It never exceeds its limit
  (`DriverCount.QueueBounded`), but is off by how far behind the values stored were
  (`DriverCount.SocketsConserved`); a release by a spooler that
  overlaps an update is lost, or the update is (`DriverCount.OverlapLoses`,
  `DriverCount.OverlapLosesToo`, `DriverCount.LostUpdate`),
  and without spooler threads the count is right (`DriverCount.QueueCounted`,
  `DriverCount.AloneWithoutSpooler`).
- The send vector is one entry short for a closing chunked write with headers and a
  body of 29 buffers or more (`ConnOutput.Conn.WriteVData`).

## Model

| member | source | states |
|---|---|---|
| Hex.StrtolPrinted | nsd/connio.c:342 | reading back what `%lx` prints with `strtol` in base 16 gives the number, for every number up to `LONG_MAX` |
| Chunked.DecodeResumes | nsd/driver.c:2232-2267 | decoding a beginning of a body and going on from where that stopped gives the same chunks, offset and result as decoding the whole, for every cut; a negative size stops decoding here, and `InsideExactly` says when it does not stop the code |
| Chunked.ArrivalsDoNotMatter | nsd/driver.c:2232-2267 | for every way of cutting what is received into arrivals, decoding after each arrival ends with the same chunks, offset and result as decoding all of it at once; with `TameNeverWild`, so does the code on every input whose size lines are not negative |
| Chunked.PassesExactly | nsd/driver.c:2252 | for a buffer in the lower half of the address space the test as written, with sums modulo 2^64, lets a size pass exactly if it fits or if it is negative by no more than the address behind the line |
| Chunked.InsideExactly | nsd/driver.c:2239-2264 | every copy the code makes lies inside the buffer exactly if decoding reaches no negative size of that kind |
| Chunked.MinusOne | nsd/driver.c:2249-2258 | the size line `-1` makes the code copy beyond the buffer |
| Chunked.TameNeverWild | nsd/driver.c:2232-2267 | an input whose size lines are not negative, cut anywhere, is decoded inside the buffer at every address |
| Chunked.WildFrom | nsd/driver.c:2252 | any other input leaves the buffer from some address on, and at no lower one |
| Chunked.WildAnywhere | nsd/driver.c:2249-2258 | an input leaves the buffer at every address exactly if the negative size it reaches is no further below zero than the offset behind its line |
| Chunked.CompleteIsTame | nsd/driver.c:2232-2267 | what is decoded completely has no negative size line |
| Chunked.DecodeFrames | nsd/driver.c:2239-2264 | frames that stand in a buffer from an offset on are decoded one by one, and the decoder stops right behind the last |
| Chunked.DecodeRecovers | nsd/driver.c:2232-2267 | printing any list of well-formed chunks and decoding it gives exactly their data, completely |
| Chunked.Request.Arrive | nsd/driver.c:2445-2450 | received bytes are appended and the decoded part and the offsets stay as they are |
| Chunked.Request.ReadSize | nsd/driver.c:2248-2250 | the NUL put over the CR to end the size is taken back: the buffer is unchanged and the result is the size in front of the CRLF |
| Chunked.Request.Store | nsd/driver.c:2256-2261 | the chunk's data is appended to the decoded part, and no byte behind the terminating NUL changes |
| Chunked.Request.DecodeOne | nsd/driver.c:2239-2264 | one pass of the loop takes exactly the chunk of the specification, moves its data in front and leaves every byte from the new `chunkStartOff` on unchanged; it is about to copy beyond the buffer exactly at a negative size that passes |
| Chunked.Request.ChunkedDecode | nsd/driver.c:2232-2267 | after any arrivals, at any addresses, the buffer holds the head and the data of all chunks decoded so far up to `chunkWriteOff`, and no write up to there, NUL included, touched a byte at or behind `chunkStartOff`; a copy beyond the buffer follows exactly if a negative size within reach was met; otherwise the result is 1 exactly if everything received is decoded |
| Bytes.MoveDown | nsd/driver.c:2258 | memmove to a lower place of the same buffer: the target holds the old source although they overlap, nothing else changes |
| ConnOutput.Conn.CompleteHeaders | nsd/connio.c:1121-1172 | headers are built unless they are skipped; chunking is turned on exactly for a streamed response of unknown length to a version above 1.0, when keeping is not ruled out and the type is not multipart/byteranges |
| ConnOutput.Conn.WriteVData | nsd/connio.c:255-380 | the wire and the flags become those of the specification `Written`, for headers sent or not, chunked or not, empty body or not; the entries used fit the send vector exactly unless the write is a closing chunked one with headers and a body of 29 buffers or more |
| ConnOutput.Conn.Close | nsd/connio.c:723-768 | the wire and the flags become those of `Closed`: a closed connection is left alone, a streaming one gets the last chunk |
| ConnOutput.WritesSendChunks | nsd/connio.c:313-365 | on a chunking connection any sequence of writes puts one chunk on the wire for each nonempty body, in order, and nothing for an empty one |
| ConnOutput.CloseTerminates | nsd/connio.c:723-768 | any positive number of closes sends exactly one zero chunk |
| ConnOutput.ClosingAgain | nsd/connio.c:723-768 | closing a closed connection any number of times changes nothing |
| ConnOutput.SentChunkWellFormed | nsd/connio.c:336-352 | every chunk sent is well formed for the decoder |
| ConnOutput.ChunkedResponse | nsd/connio.c:313-365 | writes of any bytes followed by any positive number of closes: the body decodes completely into the nonempty writes and one empty chunk at the end, and their concatenation is that of the writes |
| ConnOutput.FirstWriteChunks | nsd/connio.c:291-352 | the first write sends the headers, turns chunking on and frames its body like any later write |
| ConnOutput.WholeResponse | nsd/connio.c:255-380 | the same from before the headers: the decoder, set behind the headers, recovers the concatenation of all writes and ends at the end of the wire |
| RequestAssembly.ScanEnds | nsd/driver.c:2522-2576 | a head that is complete or refused ends behind the next newline of the stream |
| RequestAssembly.LeadingBlankLine | nsd/driver.c:2574-2597 | the head is complete without a request line exactly if the stream starts with a blank line, so that `Finish` refuses exactly those; two leading blank lines are not eaten |
| RequestAssembly.Sock.ParseLine | nsd/driver.c:2530-2734 | taking a line off the buffer keeps the rest of the head the same: refused, complete with the content's offset and length, or to be continued |
| RequestAssembly.Sock.ParseHead | nsd/driver.c:2522-2735 | more input is asked for only when no full line is left; otherwise the head is that of the whole stream |
| RequestAssembly.Sock.Finish | nsd/driver.c:2749-2851 | a request is handed over exactly if its content has arrived, with the stream's bytes behind the head, wherever they are kept; without a request line it is refused |
| RequestAssembly.Sock.StartFile | nsd/driver.c:2396-2417 | the content received so far moves to the temporary file |
| RequestAssembly.Sock.Receive | nsd/driver.c:2441-2450 | received bytes extend the buffer or the file, and the offsets with it |
| RequestAssembly.Sock.Read | nsd/driver.c:2303-2463 | each status a read returns, with the reason for it: a refusal is that of the stream's head; an error without a failing system call means a missing request line or a buffer at `maxinput`; progress is made whenever something arrives |
| RequestAssembly.Sock.Assemble | nsd/driver.c:1396-1446 | read by read, by the driver and after a hand-over by the spooler: however the stream is cut and wherever the content goes, a completed request has the lines of the stream's head and content equal to the stream's `length` bytes from `coff`, with `avail == length`; within the limits every cut gives the stream's verdict, which is a completed request, the refusal of its first bad line, or an error for a missing request line; a request kept in memory was within `maxinput` |
| DesTables.PermutationsInverse | nsd/crypt.c:98-121 | the final permutation undoes the initial one, and the other way round |
| Des.RoundUndone | nsd/crypt.c:377-430 | a round after swapping the halves undoes the round with the same key |
| Des.RoundsUndone | nsd/crypt.c:363-431 | rounds with the keys in reverse order, after swapping the halves, undo the rounds, for any number of keys and any selection |
| Des.InitialOfFinal | nsd/crypt.c:98-121 | the initial permutation undoes the final one on the two halves |
| Des.CryptInverse | nsd/crypt.c:333-448 | for every schedule, every selection with entries in 1..32 and every block, encrypting and then decrypting restores the block, and the other way round |
| Des.CryptInjective | nsd/crypt.c:333-448 | different blocks are encrypted differently |
| DesCrypt.FullTurn | nsd/crypt.c:144-146 | the sixteen shifts add up to 28 |
| DesCrypt.ParityIgnored | nsd/crypt.c:127-139 | keys that differ only in bits 8, 16, ..., 64 have the same schedule |
| DesCrypt.PickedKeyIsClosedForm | nsd/crypt.c:225-261 | a round key picked from the rotated halves is the PC1/PC2 selection at the cumulative shift modulo 28 |
| DesCrypt.RotatedFully | nsd/crypt.c:241-252 | 28 rotations restore a half |
| DesCrypt.RotateHalves | nsd/crypt.c:241-252 | the in-place rotations turn both halves by the number of shifts |
| DesCrypt.PickRoundKey | nsd/crypt.c:257-260 | one row of the schedule becomes the selection from the halves, the others stay |
| DesCrypt.SetKey | nsd/crypt.c:214-266 | the schedule is the closed form for every key, C and D end as they began, and the selection is reset to the standard one |
| DesCrypt.SaltedValid | nsd/crypt.c:480-497 | swapping by a salt keeps all selection entries in 1..32 |
| DesCrypt.SaltedTwice | nsd/crypt.c:480-497 | applying a salt twice restores the selection |
| DesCrypt.ApplySalt | nsd/crypt.c:480-497 | the in-place swaps exchange entry j and entry j + 24 exactly for the bits set in the salt |
| DesCrypt.RoundInPlace | nsd/crypt.c:377-430 | one pass over the arrays is a round of the specification on the two halves |
| DesCrypt.RoundsInPlace | nsd/crypt.c:363-431 | the loop does the rounds with the keys forward, or backward for decryption |
| DesCrypt.EncryptPrivate | nsd/crypt.c:333-448 | the first 64 entries of the block become `Crypt` of what they were, the rest stays |
| Cache.Cache.FindEntry | nsd/cache.c:194-233 | does what `Lookup` does to the recency list: a hit moves to the front, an expired entry is deleted, a pending one is not found |
| Cache.Cache.CreateEntry | nsd/cache.c:254-288 | does what `Create` does: a new pending entry at the front, or the present one, unset if it had expired |
| Cache.Cache.SetValueExpires | nsd/cache.c:435-470 | does what `Set` does: the old value is freed, size and expiry are recorded, then the list is pruned |
| Cache.Cache.PruneTo | nsd/cache.c:455-469 | the pruning loop ends and does what `Prune` does |
| Cache.Cache.UnsetValue | nsd/cache.c:491-519 | the value is freed and the entry is pending, with size and expiry 0 |
| Cache.Cache.DeleteEntry | nsd/cache.c:552-562 | the entry leaves table and list, and its value is freed |
| Cache.Cache.NextEntry | nsd/cache.c:621-685 | an iteration step skips pending entries, deletes expired ones and returns the next valid one |
| Cache.Cache.Flush | nsd/cache.c:582-600 | for any order of the table walk exactly the pending entries remain, in order, `currentSize` is 0, and every stored value was freed exactly once |
| Cache.Cache.Delink | nsd/cache.c:987-1002 | the list stays well linked in both directions without the entry, with right ends |
| Cache.Cache.Push | nsd/cache.c:1023-1036 | the list stays well linked with the entry in front |
| Cache.Cache.MoveToFront | nsd/cache.c:228-230 | relinking an entry to the front keeps all entries and the order of the others |
| CacheLaws.LookupKeeps | nsd/cache.c:194-233 | stored values before = stored after + handed to the free procedure; sizes, expiries and keys stay valid |
| CacheLaws.CreateKeeps | nsd/cache.c:254-288 | the same conservation for creation |
| CacheLaws.DeleteKeeps | nsd/cache.c:552-562 | the same conservation for deletion |
| CacheLaws.UnsetKeeps | nsd/cache.c:491-519 | the same conservation for unsetting |
| CacheLaws.SetKeeps | nsd/cache.c:435-470 | stored before + the new value = stored after + freed, each exactly once, through unsetting and pruning |
| CacheLaws.NextKeeps | nsd/cache.c:621-685 | the same conservation for an iteration step |
| CacheLaws.FlushKeepsValid | nsd/cache.c:582-600 | flushing keeps keys distinct and pending entries at size and expiry 0, for any walk, even one that misses entries |
| CacheLaws.PruneExact | nsd/cache.c:455-469 | the survivors are the list up to the shortest suffix whose removal brings the size within the limit, cut short only at the entry being set or at a pending one; their order is kept |
| CacheLaws.PruneFrees | nsd/cache.c:455-469 | the values freed by pruning are those of the removed suffix, each once |
| CacheLaws.PruneFits | nsd/cache.c:455-469 | after pruning any list with any limit the sizes are within it exactly if those up to the last entry that may not be dropped are: the one being set, or a pending one |
| CacheLaws.SetFits | nsd/cache.c:435-470 | the same after an entry is set, wherever it is in the list |
| CacheLaws.LookupKeepsPending | nsd/cache.c:194-233 | a lookup never removes a pending entry |
| CacheLaws.CreateKeepsPending | nsd/cache.c:254-288 | nor does a creation |
| CacheLaws.UnsetKeepsPending | nsd/cache.c:491-519 | nor does unsetting another entry |
| CacheLaws.SetKeepsPending | nsd/cache.c:455-469 | nor does pruning, for any pending entry other than the one being set |
| CacheLaws.NextKeepsPending | nsd/cache.c:621-685 | nor does iteration |
| CacheLaws.FlushKeepsPending | nsd/cache.c:582-600 | nor does flushing |
| CacheLaws.FlushByWalking | nsd/cache.c:582-600 | flushing is walking with the iteration and deleting what it returns |
| CacheLaws.FlushComplete | nsd/cache.c:582-600 | after a flush exactly the pending entries remain, in order, the size is 0, and every stored value was freed once |
| DnsLookup.StepKeeps | nsd/dns.c:199-228 | every step of every thread, of flushing and of iteration keeps the invariant of lookups |
| DnsLookup.LookupsSafe | nsd/dns.c:176-244 | in every interleaving at most one thread resolves a key, the entry pointer it holds across the unlocked lookup is in the table and pending when it sets or deletes it, an answer is one the resolver gave for that key, and each copied value is stored or freed exactly once |
| FastPath.StepKeeps | nsd/fastpath.c:583-651 | every step of every thread keeps the invariant of cached files |
| FastPath.FilesSafe | nsd/fastpath.c:583-651 | in every interleaving a file's count is 1 if it is a cache value plus its senders; it exists exactly while that is positive, so it is freed at zero and never while being sent; a body sent from the cache has the mtime, size, device and inode of that request's stat; nothing is used after it was freed |
| FastPath.ReleaseCounts | nsd/fastpath.c:750-782 | dropping references one by one lowers each file's count by the number of its drops and frees it exactly at zero |
| AdpParse.FirstCloserIs | nsd/adpparse.c:344-350 | the closer is the first `%>` with as many `<%` as `%>` before it, and there is none exactly if no such `%>` exists |
| AdpParse.FindCloser | nsd/adpparse.c:341-351 | the search ends and returns that closer, or none exactly if there is none |
| AdpParse.Parser.AppendBlock | nsd/adpparse.c:562-623 | a block adds its row: text as it is, a script with a negative length and, for `<%=`, the append command in front; an empty block adds nothing; the line counts the page's newlines up to the block's end |
| AdpParse.Parser.AppendScript | nsd/adpparse.c:361-375 | the script's bounds are ordered, `<%=` included, and the delimiters add no line |
| AdpParse.Parser.Tag | nsd/adpparse.c:341-377 | one tag keeps the meaning: what is in the table, the text not appended yet and the meaning of the rest of the page together stay the same |
| AdpParse.Parse | nsd/adpparse.c:323-511 | the table's blocks executed in turn do what the page means; lengths add up to the text, `nscripts` counts the negative ones, and each block is a part of the page, in order and disjoint, whose line is the number of newlines before it |
| AdpParse.Exec | nsd/adpeval.c:1116-1141 | the pointer walk visits exactly the blocks of the table, or a first part of them when a script ends the page early |
| AdpParse.Evaluate | nsd/adpeval.c:1061-1202 | compiling and executing a page gives the page's meaning: characters outside scripts in order, each once, and each script evaluated in its place |
| AdpParse.EventsOfText | nsd/adpparse.c:352-358 | text without a matched `<%` is said as it is, unmatched `<%` included |
| AdpParse.PlainPage | nsd/adpparse.c:488-497 | a page without a script is its own output |
| AdpPageRuns.StepKeeps | nsd/adpeval.c:526-694 | every step of every interpreter, of nested calls too, keeps the invariant below unless it frees an interpreter page of a suspended call or starts a script whose objects were freed |
| AdpPages.FreeSlotKeeps | nsd/adpeval.c:1291-1312 | freeing an interpreter page that no call uses keeps all counts, table entries and cached results right, for the last reference and for others |
| AdpPageRuns.BuiltOkKeeps | nsd/adpeval.c:624-661 | a new cached result replaces the old one, which loses exactly the page's reference; what becomes of the old one's objects is said by `StaysStale` and `SafeExactlyIfCareful` |
| AdpPages.DropCounts | nsd/adpeval.c:1393-1401 | dropping a reference lowers one count by one and frees the result exactly at zero |
| AdpPageExact.PagesSafe | nsd/adpeval.c:423-705 | in every interleaving of calls, nested to any depth, that is careful in the sense of `SafeExactlyIfCareful`: an entry without a value has exactly one parser; a page points to a table entry exactly if it is its current value; a page's count is the number of its slots and a cached result's count is its page plus the calls that execute it, and both live exactly while that is positive; every call's page is in its slot and has the stat of the call; nothing is used after it was freed |
| AdpPageFaults.EntryRemoved | nsd/adpeval.c:1291-1312 | a table entry disappears only when parsing its file fails or when the step frees the last interpreter page of the page that is its value |
| AdpPageRuns.SuspendKeeps | nsd/adpeval.c:1116-1141 | a call whose script starts keeps its references while further calls run |
| AdpPageExact.SafeExactlyIfCareful | nsd/adpeval.c:423-705 | an interleaving after which no call is under way used nothing after it was freed, script objects included, exactly if no step freed an interpreter page of a suspended call, and no call whose objects a step freed while it was suspended started another script |
| AdpPageObjs.CautiousIsCareful | nsd/adpeval.c:678-681 | that is so if no step frees an interpreter page or the objects that a suspended call executes with |
| AdpPageExact.GiftNewer | nsd/adpeval.c:678-686 | the objects an interpreter page gets are for a cached result no older than the one whose objects they replace |
| AdpPageExact.StaysStale | nsd/adpeval.c:678-686 | a call whose objects were replaced never gets them back |
| AdpPageFaults.StaysDoomed | nsd/adpeval.c:688-694 | a call whose interpreter page was freed never gets it back, and uses it as soon as it goes on |
| AdpPageCases.NestedChange | nsd/adpeval.c:514-525 | including the page's own file after it was changed frees the interpreter page in use |
| AdpPageCases.NestedRebuild | nsd/adpeval.c:678-681 | including the page's own file from a cached result that has expired frees the objects in use: the next script of the including call uses them, and without one nothing does |
| AdpPageExact.NullObjsExactly | nsd/adpeval.c:1303-1306 | objects that are not there are freed exactly if a step frees the last interpreter page of a page with a cached result, and no call before took a cached result with that interpreter page |
| AdpPageExact.TakenAll | nsd/adpeval.c:676-687 | in every run an interpreter page has objects for a cached result exactly if some call of it took one |
| AdpPageCases.NullObjsReached | nsd/adpeval.c:1303-1306 | two interpreters, one with and one without the cached result, reach that |
| WriterJob.Job.constructor | nsd/driver.c:4084-4115 | in all three set-ups the header is the first leftover and the buffer's size is the larger of the header and the configured one |
| WriterJob.Job.ReadFromSpool | nsd/driver.c:3413-3498 | the leftover moves to the front and the file's next bytes follow it; sent, leftover and unread file together stay the same, within the buffer |
| WriterJob.Job.Send | nsd/driver.c:3519-3605 | what was sent and what is left together stay the same; size and buffer shrink by what was sent |
| WriterJob.Job.Spin | nsd/driver.c:3737-3760 | one round keeps delivery right for every pair of answers, and makes progress if both move a byte |
| WriterJob.Job.Deliver | nsd/driver.c:3715-3805 | for any short reads and partial sends what was sent is a beginning of header and file; the job is done exactly if all of it was sent; it gets done if every call moves a byte |
| AsyncWriter.Writer.AsyncWrite | nsd/driver.c:4660-4724 | a submitted record becomes the last in the line of its descriptor, behind what was written and what is pending, and all other lines stay; the invariant of the log is kept |
| AsyncWriter.Writer.WriteAll | nsd/driver.c:4859-4902 | a pass over the list is a run of one write for each record with the given answers |
| AsyncWriter.Writer.FetchAll | nsd/driver.c:4926-4936 | moving the queue record by record puts it in reverse in front of the list, and counts it |
| AsyncWriter.Writer.Spin | nsd/driver.c:4859-4937 | a spin of the thread is a run of the log's steps for every sequence of answers, and keeps its invariant: what was written of a record and what is pending make up the record |
| AsyncLog.Fifo | nsd/driver.c:4859-4936 | a descriptor whose writes are complete receives its records in the order of submission, whatever happens to other descriptors, and all of them once nothing is pending |
| AsyncOrder.OrderedExactlyIfOldest | nsd/driver.c:4859-4936 | once nothing is pending or given up for a descriptor, its bytes were written in the order of submission exactly if every write of bytes for it was that of its oldest pending record |
| AsyncOrder.OrderedExactlyIfGuarded | nsd/driver.c:4893-4936 | if each write moved at least a byte, they were in order exactly if no write that left a rest had another record of the descriptor behind it in the pass, and no queue with records of the descriptor was fetched in front of a rest |
| AsyncLog.EveryByteOnce | nsd/driver.c:4859-4936 | with partial and failing writes, the bytes written of a record put together are a beginning of it, and all of it once it is no longer pending unless a write of it failed; they go to its descriptor |
| DriverThread.Driver.HandleList | nsd/driver.c:1337-1365 | a loop over a list is a run of the steps for its sockets, in order, each release loading and storing the count |
| DriverThread.Driver.DrainClosing | nsd/driver.c:1337-1365 | the closing stage: sockets are released or stay on the close list |
| DriverThread.Driver.ReadAhead | nsd/driver.c:1372-1461 | the read-ahead stage, with the wait list for what no thread took |
| DriverThread.Driver.RetryWaiting | nsd/driver.c:1467-1481 | the wait list is turned around and tried from its oldest socket on |
| DriverThread.Driver.AcceptMore | nsd/driver.c:1487-1546 | sockets are accepted only if none waits, up to `acceptsize` and `maxqueuesize`, until accepting fails |
| DriverThread.Driver.AcceptOne | nsd/driver.c:1836-1926 | a Sock structure from the free list or a new one goes to its place, back to the free list if accepting failed |
| DriverThread.Driver.TakeBack | nsd/driver.c:1554-1581 | sockets handed back go to the read list, the close list or are released |
| DriverThread.HandedAnyTime | nsd/driver.c:929-952 | a socket handed back at any moment of any steps of the driver thread that do not take over the hand-backs makes no difference to one handed back after them |
| DriverThread.Driver.Spin | nsd/driver.c:1337-1581 | a spin of the thread is the run of its five stages for every outcome of every socket, with sockets handed back meanwhile; afterwards every socket is in one place, the wait list in order, and the count the number of sockets accepted and not released, within its limit |
| DriverThread.Driver.SockClose | nsd/driver.c:929-952 | handing back a socket keeps every socket in one place, the wait list in order and the count right; the driver is woken exactly if nothing was handed back before |
| DriverLists.StepConserves | nsd/driver.c:1337-1581 | every step of every thread keeps each socket in exactly one place |
| DriverLists.StepOrders | nsd/driver.c:1463-1481 | every step keeps the wait list ordered by the time of joining, what was tried in this spin older than what is still to be tried |
| DriverCount.SocketsConserved | nsd/driver.c:1210-1601 | in every interleaving with hand-offs and releases by other threads: each socket is in exactly one of the read, wait, close, hand-back, in-service, free or current places; the wait list is tried oldest first and keeps its order; `queuesize`, loaded and stored in separate steps, is the number accepted and not released exactly if the values stored were behind by 0 in all |
| DriverCount.StepSkews | nsd/driver.c:1958 | a store puts the count off by exactly as much as the value loaded is behind |
| DriverCount.QueueBounded | nsd/driver.c:1494-1498 | in every interleaving, lost updates included, `queuesize` never exceeds `maxqueuesize` |
| DriverCount.QueueCounted | nsd/driver.c:1884 | if no update of the count starts while another is under way, `queuesize` is the number accepted and not released |
| DriverCount.AloneWithoutSpooler | nsd/driver.c:3019-3067 | that is so for every run without spooler threads |
| DriverCount.OverlapLoses | nsd/driver.c:1884 | a release by a spooler between load and store of an update by the driver is lost, from every state |
| DriverCount.OverlapLosesToo | nsd/driver.c:1958 | and so is an update by the driver between load and store of a release |
| DriverCount.LostUpdate | nsd/driver.c:1884 | a run that ends with one socket accepted and not released, and a count of two |
| EncodingTable.StepKeeps | nsd/encoding.c:594-624 | every step of every caller keeps the table's invariant |
| EncodingTable.LoadOnce | nsd/encoding.c:594-624 | in every interleaving a name is loaded at most once, no call returns the lock marker, all calls for a name return the same, a failed load included, and a locked entry has exactly one loader |

## Left out

- Chunked.DecodeResumes: inputs on which the code copies beyond its buffer, which `InsideExactly` characterizes.
- Chunked.ArrivalsDoNotMatter: the same inputs.
- Chunked.PassesExactly: buffers in the upper half of the address space, where user memory does not lie.
- Chunked.Request.ChunkedDecode: the mode that does not update the buffer, which no caller uses; `SockParse`'s test of the decoder's result against 0, a value the decoder never returns; and what happens after a copy has left the buffer, which C leaves open.
- ConnOutput.Conn.WriteVData: compression and the writer thread; sends are complete.
- RequestAssembly.Sock.Assemble: requests with chunked content, drivers that do not parse, gzip and keep-alive flags, and the query copied for uploads kept in a file; the request and header parsers are parameters. Sizes are unbounded integers.
- RequestAssembly.Sock.Read: a spooled request may succeed beyond `maxinput`; the limit stated is the one that guarantees success.
- DesCrypt.EncryptPrivate: bits are booleans instead of bytes; packing a password into bits, the 25 repeated encryptions and the printable result of `Ns_Encrypt` are not modelled.
- Cache.Cache.Flush: the statistics counters and the count it returns; the order of the walk is any order of the hash table.
- CacheLaws.SetKeepsPending: that every pending entry has an owner is not claimed, because a timed-out wait can create an entry again and then give up.
- FastPath.FilesSafe: ranges, compressed variants, mapped files and files above the cacheable size.
- DnsLookup.LookupsSafe: sizes of values and time-outs only through the parameters of steps; the resolvers themselves.
- AdpParse.Parse: `<script>` and registered tags, attributes, SAFE and SINGLE modes, Tcl files, and the placing of the two arrays behind the text.
- AdpParse.Exec: tracing, debugging, compiled script objects and error logging; the line in a frame is not cut to 16 bits.
- AdpPageExact.PagesSafe: exclusive building of the first cached result, which the code does not ensure; the objects of single scripts, which Tcl keeps while it evaluates them; the generation of a cached result does not wrap around.
- AdpPageExact.SafeExactlyIfCareful: what a use after freeing does, beyond that it happens; runs that end in the middle of a call. Objects of a cached result that `FreeInterpPage` leaves allocated, because other interpreters have the page, count as freed with their interpreter page, which the call uses in any case.
- WriterJob.Job.Deliver: streaming jobs, whose seek ignores the unsent leftover, memory-vector jobs, poll and time-outs.
- AsyncLog.Fifo: disabling, shutdown and draining; the synchronous write when the thread is not active.
- AsyncOrder.OrderedExactlyIfGuarded: writes of records that move no byte, for which `OrderedExactlyIfOldest` is the exact statement.
- AsyncWriter.Writer.Spin: the lists are sequences instead of linked structures.
- DriverCount.SocketsConserved: polling, time-outs and what makes a socket ready are outcomes given to the steps; the spooler's queue is part of being in service; a socket is put on the free list in the step that stores the count; shutdown.
- DriverThread.Driver.Spin: the lists are sequences instead of linked structures; the sockets handed back meanwhile are in service when the spin starts; releases by spoolers in the middle of a spin are steps of DriverLists only.
- EncodingTable.LoadOnce: the charset and extension tables.
- Connection threads, Tcl commands, configuration, `nsd/event.c`, virtual servers and everything outside the files named above.
