# Verified model of a scanning proxy

A forward proxy intercepts TLS, keeps a domain blocklist, scans downloads with ClamAV while it trickles them to the
client, and caches scan results and leaf certificates. This project models the parts of it in which state, concurrency
or wire formats make mistakes easy, and proves what they promise. `dafny verify dfyconfig.toml` checks everything.

## What is modelled

**The scan/trickle protocol** (`Trickle*.dfy`, `SessionProgram.dfy`). A writer goroutine buffers the upstream body,
feeds the scanner and publishes a verdict; at the same time `TrickleBody.Read` hands bytes to the client. They share a
temp file, an atomic counter, a token channel, a result channel, a closed channel and a tail body.
`TrickleProtocol` is a state machine with one program counter for each side and one action for each access to shared
memory; the tee's write is split into file, counter, token and hash, and the end of a scan into tail hand-over,
setting the result, sending the verdict and the two closes. The scanner reads any part of the tee in any pieces and
then answers anything, except that an answer other than an error comes only after the end of the tee
(`Instream.ScanReader` proves that of the clamd client). `TrickleInvariant` proves one invariant of every interleaving;
the theorems over all runs are in `TrickleSafety` and `TrickleProgress`; `TrickleOutcome` derives the status, verdict and
cache entry of every job from what the file system, the scanner and the caches answered, read off the actions of the run;
`TrickleExamples` has concrete runs. `SessionProgram` writes out `Read`, `readOne`,
`flushRead` and `runScan` with their loops, interrupted by the other side between any two accesses, and proves that they
take only steps of the state machine, return what they say, and terminate. What the file system, the caches and the
scanner do in one job are inputs of `RunScan`. A Read is taken to reach its select before the timer it has just started
fires.

**The domain blocklist** (`Text`, `Labels`, `HostPort`, `Blocklist`). A heap trie of reversed labels, with a ghost view from paths
to nodes, refines the plain rule "the host is an entry, or ends in a dot and the base of a wildcard". Splitting off a port follows
the documented forms of Go's net.SplitHostPort.

**The result cache and the leaf certificate cache** (`MapFacts`, `ResultCache`, `ResultCacheRuns`, `ScanAge`,
`LeafCache`). Heap
objects with hand-maintained counters, each public operation one atomic step, proved equal to functions whose
properties over every sequence of operations are then proved. `ScanAge` follows jobs through three such steps (the
scanner's answer, the lookup, the store) with time and other jobs between them. Redis may fail at any call, may be written by other
instances, and (for certificates) may lose or damage records, but a record that parses says the truth about its certificate.
`InfectedContent` joins the result cache to the scan protocol.

**HTTP/1.1 response framing** (`Digits`, `Chunked`, `Framing`, `FramingReader`). The head and body writers and the chunk
encoder write to a byte sink; upstream headers are as net/http parses them, with no carriage return, no colon in a name, and names in canonical form; an independent reader that follows sections 6.3 and 7.1 of RFC 9112 reads them back.

**clamd's INSTREAM format and syslog structured data** (`Instream`, `Syslog`). The printers are undone by independent
parsers, the second following section 6.3 of RFC 5424.

**The blocklist store and its replicas** (`BlocklistStore`). Table, audit log, queued Redis commands, notifications and
a replica that reloads, interleaved in any order, with failures. Redis executes commands in the order of the commits.

## Where the code does less than one might expect

Each of these is a lemma with a concrete input or an exact condition.

* End of file does not always mean the whole body. If the scanner fails before it has read more than `MaxSize` bytes of
  a body longer than `MaxSize + 1`, the client gets `MaxSize + 1` bytes and a normal end of file; if the temp file
  cannot be opened for writing, it gets nothing and a normal end of file (`EofMeansComplete`, `ErrorTruncatesOversizeBody`).
* Content that the hash tier knows to be infected is let through if the scanner fails, the limit is exceeded or the
  temp file cannot be opened, since these paths never ask the cache (`KnownInfectedJob`); with the scanner down, a body
  within the limit is delivered in full (`KnownInfectedIsDelivered`).
* A response of unknown length with `Close` set announces `Connection: close`, but its body is written in chunks; a
  reader takes the chunk coding for content (`MessageRoundTrip`).
* With Redis and a time to live that is not positive, cached results never expire (`NonPositiveTtlNeverExpires`); with
  Redis a result can be served for almost twice its time to live (`RedisDoublesStaleness`).
* An infected verdict can outlive its scan for ever although every later scan is clean: with Redis
  whenever the content is scanned again in time (`RedisKeepsInfectedAlive`), without it if jobs store what they found in the hash tier only after it expired there
  (`LateStoreOutlivesBound`, `LateJobsKeepInfectedAlive`). What is served stays within an age exactly if no entry is made
  from too old a scan (`AgeIsLagIff`), which prompt jobs ensure (`PromptLags`).
* A certificate can be served from memory for up to a second after it has a day left, because its encoding drops the
  fraction of a second that memory keeps (`ServedCertIsGood`, `MemoryServesADayLeft`).
* Storing a result does not replace an entry that is there, even one already expired (`StoredIsFoundIff`).
* A replica reloads before it subscribes again, so a change between the two stays unnoticed until the next
  notification (`ReloadBeforeSubscribeLosesUpdate`, `NotificationHeals`).
* The status line repeats the code, since the upstream status text already starts with it (`StatusLineIff`,
  `StatusLineRepeatsCode`).
* In structured data an empty field and a field `-` look the same, and nothing else does (`WrittenAlikeIff`,
  `EmptyLooksLikeHyphen`).

## Model

| member | source | states |
|---|---|---|
| TrickleProtocol.ApplyWriter | internal/scan/manager.go:192-312 | a step of the scan goroutine leaves the reader's position, mode and deliveries alone and takes back no signal: token, counter, verdict and closed channel only ever appear |
| TrickleProtocol.ApplyReader | internal/scan/trickle.go:33-133 | a step of Read changes nothing the scan goroutine owns; the upstream cursor moves only when the tail is read, by what was read |
| TrickleProtocol.RunSplit | internal/scan/manager.go:184-185 | runs of the two goroutines compose: a run is a run of its first part followed by a run of the rest |
| TrickleInvariant.StepKeepsInv | internal/scan/manager.go:192-312 | every action of either goroutine, in every interleaving, keeps the protocol invariant (byte accounting, channel discipline, wakeup, pace, verdict and cache entry) |
| TrickleInvariant.RunKeepsInv | internal/scan/manager.go:192-312 | the invariant holds along every run |
| TrickleSafety.ReachableInv | internal/scan/trickle.go:76-134 | the invariant holds in every reachable state |
| TrickleSafety.BytesAreConserved | internal/scan/manager.go:399-407 | in every reachable state the client holds a prefix of the upstream body, has read no further than the counter, the counter is no further than the file, the file is a prefix of the body, and file, tail taken, chunk in flight and unread upstream make up the body unless the rest was discarded for a browser job |
| TrickleSafety.EofMeansComplete | internal/scan/trickle.go:123-130 | a client told end of file has the whole body exactly once if and only if the temp file opened and the scan did not fail on an oversize body before passing the limit; in those cases it has exactly the first MaxSize+1 bytes, or none |
| TrickleSafety.OnlyErrorsTruncate | internal/scan/manager.go:265-288 | a job that ends clean or too large never truncates |
| TrickleExamples.ErrorTruncatesOversizeBody | internal/scan/manager.go:279-288 | a concrete run: three-byte body, limit one, scanner unavailable; the client gets two bytes and end of file |
| TrickleExamples.NoTempFileDeliversNothing | internal/scan/manager.go:201-206 | a concrete run: the temp file cannot be opened for writing; the client gets end of file and nothing else |
| TrickleOutcome.StepRemembers | internal/scan/manager.go:192-312 | at every program point of the scan goroutine, what it carries agrees with the answers heard so far, and every action of either side keeps this |
| TrickleOutcome.JobOutcome | internal/scan/manager.go:201-311 | every final status, as an if and only if: clean if the job passes (file opened, limit kept, scan not failed), the scanner or in its place the URL hit says clean and the hash tier does not say infected; infected if it passes otherwise; too large if the limit is exceeded at the size check; error if the file did not open or the scan failed within the limit. The verdict lets the body pass unless infected and names the deciding threat; the cache gets the deciding finding of exactly the scanned jobs that pass |
| TrickleOutcome.OversizeMeansBody | internal/scan/manager.go:221-265 | unless the scan failed, the limit is exceeded at the size check exactly if the body is longer than MaxSize |
| TrickleOutcome.InfectedIfAsked | internal/scan/manager.go:243-304 | if every hash lookup of the run says infected, the job ends infected if and only if it passes; otherwise the verdict lets the body through |
| TrickleExamples.InfectedBodyIsCutOff | internal/scan/trickle.go:42-52 | a concrete run: one byte trickled, the scanner finds a virus, the reader aborts, and no continuation delivers another byte |
| TrickleExamples.ScannerDownDeliversAnything | internal/scan/manager.go:279-288 | for every non-empty body within the limit, with caching on, a run in which the scanner is down, the hash tier is never asked, and the client gets the whole body with a normal end of file |
| InfectedContent.KnownInfectedJob | internal/scan/manager.go:243-304 | cache and protocol together, for any hash function: while the entry for the hash of the job's body says infected, after any cache operations, and the job's lookups are answered for the hash of what it buffered, the job ends infected if and only if its file opened, its body is within the limit and its scan did not fail |
| InfectedContent.KnownInfectedIsDelivered | internal/scan/manager.go:279-288 | for every non-empty body within the limit and any cache that holds a live infected entry for its hash, there is a run of the job that ends in error and delivers the whole body |
| InfectedContent.LooksUpBody | internal/scan/manager.go:243-300 | whenever the hash tier is asked, the hash is that of the whole body |
| TrickleSafety.AbortIsForever | internal/scan/trickle.go:37-39 | from any state of the invariant with the reader aborted, no run delivers a byte or returns anything but the virus error |
| TrickleSafety.NoByteAfterInfected | internal/scan/trickle.go:42-52 | over whole runs: once the infected verdict was consumed, no byte is ever delivered again and every later Read fails |
| TrickleSafety.AtMostOneByteAfterVerdict | internal/scan/trickle.go:42-56 | from the moment an infected verdict is sent, at most one more byte is ever delivered, and none if no Read is under way: a later Read finds the verdict waiting |
| TrickleSafety.InfectedRunsTrickle | internal/scan/manager.go:306-311 | at every moment of a run whose job is infected at that or a later moment, the reader is not flushing, has not reported end of file, and has delivered at most one byte per trickle interval waited |
| TrickleSafety.TrickleRate | internal/scan/trickle.go:31-56 | without a clean verdict, bytes delivered never exceed trickle intervals waited |
| TrickleSafety.LifecycleIsMonotone | internal/scan/manager.go:66-71 | over every run the status goes forward only; a final status, the temp file behind it, the verdict and the stored result never change |
| TrickleSafety.FinishedJob | internal/scan/manager.go:290-311 | when the upload is marked done the job is final, one verdict was sent, it is clean exactly when the status is not infected (which status: see `JobOutcome`), a clean or infected job buffered the complete body, and what was cached is the final status under the complete body |
| TrickleSafety.ServableFile | internal/scan/manager.go:316-320 | a file that may be downloaded never changes again and is the whole body if and only if the run does not truncate |
| TrickleSafety.ChannelsNeverBlock | internal/scan/trickle.go:88-100 | the verdict is sent once into an empty channel, a reader that waits for it after the upload finds it there, a handed-over tail is open, and file reads find the counted bytes |
| TrickleProgress.NextWriter | internal/scan/manager.go:192-312 | the scan goroutine can act in every reachable state until it is done: no send or step of it blocks |
| TrickleProgress.NextAction | internal/scan/trickle.go:80-133 | no deadlock: while a Read is under way, some action is enabled |
| TrickleProgress.NoLostWakeup | internal/scan/trickle.go:80-103 | a reader that waits although counted bytes are unseen finds the token or the closed channel, unless the writer is about to post the token |
| TrickleProgress.InternalDecreases | internal/scan/trickle.go:80-133 | every action but a new Read lowers the ranking measure, so waking up in vain cannot go on forever |
| TrickleProgress.EveryReadReturns | internal/scan/trickle.go:33-57 | under every scheduling, the number of actions before the next call is bounded and the processes can only come to rest with the Read returned and the job done |
| SessionProgram.Session.Step | internal/scan/manager.go:184-185 | every access to shared memory is one protocol action and extends the recorded run by it |
| SessionProgram.Session.Read | internal/scan/trickle.go:33-57 | the call terminates; what it returns is exactly what the delivered prefix grew by, at most the buffer, with nil, end of file or the virus error; a verdict there at the start is obeyed (virus error and nothing, or flushing); a flushing reader gets at least what was available, a trickling one exactly one byte; all that happened is one run of the protocol |
| SessionProgram.Session.TrickleRead | internal/scan/trickle.go:42-56 | a verdict that was there when the timer was started is received and obeyed; otherwise verdict or timer, and exactly one byte unless a verdict came |
| SessionProgram.Session.ReadOne | internal/scan/trickle.go:76-105 | the spin loop terminates with exactly one byte, at once if one is unseen, or with what flushing or aborting gives |
| SessionProgram.Session.FlushRead | internal/scan/trickle.go:109-134 | the flush loop terminates with available bytes, as many as there are and fit, or tail bytes, or end of file, never with the virus error |
| SessionProgram.Session.RunScan | internal/scan/manager.go:192-312 | terminates on every path, whatever the reader does; the answers heard are exactly those that the given file system, caches and scanner give on the way, and the final status, verdict, threat and cache entry are those they call for, case by case; whole body in the file if clean or infected, body open exactly if handed over |
| SessionProgram.Session.Examine | internal/scan/manager.go:265-304 | each way on from the size check (oversize, failed scan, finding) ends at publishing the status and verdict the answers call for; the hash tier is asked exactly if the job passes |
| SessionProgram.Session.ScanTee | internal/scan/manager.go:258-262 | the scanner reads exactly as far as it does, to the end unless it fails, and its answer is what the size check goes on with |
| SessionProgram.Session.BufferBody | internal/scan/manager.go:225-262 | the URL tier is asked if there is a cache; a hit replaces the scan, a miss leads to it |
| SessionProgram.Session.CopyTee | internal/scan/manager.go:228-229 | io.Copy of the tee terminates with the limited reader exhausted |
| Labels.JoinSplit | internal/proxy/blocklist.go:45 | joining the labels of a string gives the string back |
| Labels.SplitInjective | internal/proxy/blocklist.go:45 | the labels determine the string |
| Labels.SplitConcat | internal/proxy/blocklist.go:44-52 | splitting at a dot splits the labels |
| Labels.LabelSuffixIsStringSuffix | internal/proxy/blocklist.go:88-107 | matching labels from the right with at least one left over is exactly "host ends with a dot and the base" |
| Labels.NaiveMonotone | internal/proxy/blocklist.go:25-34 | adding entries never unblocks a host; order and repetition of entries do not matter |
| Labels.NormalIff | internal/proxy/blocklist.go:37 | an entry is stored without the blanks around it, all of them and nothing else, in lower case |
| Text.LowerExact | internal/proxy/blocklist.go:75 | lower case is letter by letter, and only for A to Z |
| BlocklistTrie.PathOfInjective | internal/proxy/blocklist.go:44-52 | different label sequences lead to different trie paths |
| BlocklistTrie.HoldsMore | internal/proxy/blocklist.go:36-56 | adding an entry as addEntry does keeps the exact names and terminal paths those of the entries and no others |
| BlocklistTrie.TrieRefinesRule | internal/proxy/blocklist.go:71-107 | for every list of entries and every host: the trie's answer is the naive rule, both ways |
| BlocklistTrie.Blocklist.constructor | internal/proxy/blocklist.go:25-34 | the list built holds exactly the given entries |
| BlocklistTrie.Blocklist.AddEntry | internal/proxy/blocklist.go:36-56 | the trie stays a tree, holds the old entries and the new one, and grows by fresh nodes only |
| BlocklistTrie.Blocklist.GetOrCreate | internal/proxy/blocklist.go:58-68 | returns the child on that path, adding at most that node |
| BlocklistTrie.Blocklist.AddWildcard | internal/proxy/blocklist.go:41-52 | exactly one path becomes terminal: the base's labels from the right, then the sentinel |
| BlocklistTrie.Blocklist.WildcardBlocked | internal/proxy/blocklist.go:88-107 | true exactly if a wildcard ends below a proper suffix of the host's labels, although the loop stops at the first missing child |
| HostPort.SplitIffHasPort | internal/proxy/blocklist.go:76-78 | a host is split off exactly from host:port and [address]:port with nothing out of place, and is the host of that form |
| HostPort.NoPortIff | internal/proxy/blocklist.go:76-78 | no port is split off exactly from strings of neither form |
| BlocklistTrie.Blocklist.IsBlocked | internal/proxy/blocklist.go:71-84 | if the host in lower case has one of the two forms with a port, it is blocked exactly if the naive rule blocks the host of that form, and otherwise exactly if the rule blocks it as it is; a nil list blocks nothing |
| ResultCache.MemoryTier.Lookup | internal/scan/cache.go:74-97 | one lookup does to map, counter and answer what the specification of get says |
| ResultCache.MemoryTier.Save | internal/scan/cache.go:110-120 | one tier's part of a store, memory and Redis |
| ResultCache.MemoryTier.StoreInMemory | internal/scan/cache.go:123-134 | nothing is stored at capacity or over an existing entry; otherwise entry and counter change together |
| ResultCache.MemoryTier.EvictExpired | internal/scan/cache.go:153-162 | whatever the iteration order, exactly the expired entries go and the counter falls by their number |
| ResultCache.Cache.GetByURL | internal/scan/cache.go:65-67 | touches only the URL tier |
| ResultCache.Cache.GetByHash | internal/scan/cache.go:70-72 | touches only the hash tier |
| ResultCache.Cache.Store | internal/scan/cache.go:101-121 | stores under both keys, and nothing unless the finding is clean or infected |
| ResultCacheRuns.RunKeeps | internal/scan/cache.go:74-162 | every sequence of operations keeps counters exact and every held finding traceable to a store within its horizon |
| ResultCacheRuns.CountersAgree | internal/scan/cache.go:123-134 | after every run both counters are the sizes of their maps and within a non-negative capacity |
| ResultCacheRuns.UrlHitsAreRecent | internal/scan/cache.go:74-97 | after every run a URL hit is clean or infected and was stored under that key less than one time to live ago without Redis, less than two and at least a tick short of it with Redis |
| ResultCacheRuns.HashHitsAreRecent | internal/scan/cache.go:74-97 | the same for the hash tier and its time to live |
| ResultCacheRuns.NonPositiveTtlNeverExpires | internal/scan/cache.go:114-117 | with Redis and a time to live that is not positive there is no staleness bound at all |
| ResultCacheRuns.RedisDoublesStaleness | internal/scan/cache.go:83-89 | the bound with Redis is tight: a finding is served at the last moment it allows |
| ResultCacheRuns.EvictionIsInvisible | internal/scan/cache.go:153-162 | no lookup now or later is answered differently from memory because of an eviction |
| ResultCacheRuns.EvictionIsExact | internal/scan/cache.go:153-162 | no expired entry remains and no other goes, and room is freed exactly if something had expired |
| ResultCacheRuns.StoredIsFoundIff | internal/scan/cache.go:123-134 | in memory-only mode a finding just stored is found if and only if there was room and no entry, or a live entry that says the same |
| ResultCacheRuns.InfectedStaysOverRuns | internal/scan/cache.go:123-134 | until it expires, no sequence of operations changes or removes an infected hash entry |
| ResultCacheRuns.InfectedIsSticky | internal/scan/manager.go:243-254 | while a hash entry says infected, after any operations, every job that looks that content up concludes infected, whether it comes from a scan or from a cached URL, with the cached threat unless its own side is infected; jobs that fail or are too large do not look it up |
| ScanAge.HitsRepeatRecentScans | internal/scan/manager.go:290-304 | without Redis, after every run of any number of jobs, whatever happens between their scan, lookup and store: a hit repeats a scan, in the hash tier one of the same content; if every job stored its own answer within a gap, and a finding from the hash tier before that entry expired, a URL hit's scan is less than both times to live and the gap old, a hash hit's less than its own time to live and the gap |
| ScanAge.AgeIsLagIff | internal/scan/manager.go:290-304 | without Redis, over every run: what memory serves stays within the time to live plus a lag at every moment, in each tier, if and only if no entry is made there from a scan older than the lag |
| ScanAge.PromptLags | internal/scan/manager.go:299-304 | prompt jobs make hash entries only from their own scans, and no entry from a scan too old |
| ScanAge.LateStoreOutlivesBound | internal/scan/manager.go:299-304 | a run without Redis: a job finds an infected entry a tick before it expires and stores it two ticks later; the URL tier serves the one infected scan when both times to live have passed |
| ScanAge.LateJobsKeepInfectedAlive | internal/scan/manager.go:299-304 | without Redis, after any number of rounds of such late jobs, the hash tier still serves the one infected scan although every later scan was clean |
| ScanAge.RedisKeepsInfectedAlive | internal/scan/cache.go:113-120 | with Redis, the same after any number of jobs that store at once |
| ResultCacheRuns.MergeIsMoreRestrictive | internal/scan/cache.go:166-174 | a merge is infected exactly if either side is, and is otherwise its first side |
| LeafCache.Cache.GetCert | internal/cert/leaf.go:89-138 | one call does to map, counter, Redis and answer what the specification says, on every path |
| LeafCache.WhichIsServed | internal/cert/leaf.go:89-138 | a certificate in memory with more than a day left is the one served; else one in Redis with more than a day left, or an error if it does not parse; else a new one for the name, or an error |
| LeafCache.CertIsReused | internal/cert/leaf.go:78-100 | what was served is in memory afterwards, if there is room, and is served again while a day is left |
| LeafCache.CertIsShared | internal/cert/leaf.go:108-158 | what was generated is served by every proxy on the same Redis that has nothing in memory, while a day is left |
| LeafCache.EvictionIsExact | internal/cert/leaf.go:67-76 | no expired entry remains and no other goes, and room is freed if something had expired |
| LeafCache.Cache.StoreMem | internal/cert/leaf.go:78-87 | stores and counts unless full |
| LeafCache.Cache.EvictExpired | internal/cert/leaf.go:67-76 | whatever the iteration order, exactly the expired entries go and the counter falls by their number |
| LeafCache.RememberKeeps | internal/cert/leaf.go:78-87 | storing keeps the counter exact provided no entry is there, although storing itself does not look |
| LeafCache.RunKeeps | internal/cert/leaf.go:67-158 | every run keeps the counter exact and at most 2000, and every recorded expiry true of its certificate to the second, in Redis never beyond it |
| LeafCache.ServedCertIsGood | internal/cert/leaf.go:89-138 | after every run, a certificate served from whichever tier is for the requested name; it is valid for more than 24 hours if and only if it is not served from memory in the last second recorded there, and otherwise less than a second short |
| LeafCache.MemoryServesADayLeft | internal/cert/leaf.go:96-103 | a concrete run: a certificate is served from memory with exactly 24 hours left |
| Digits.ParsePrint | internal/proxy/tunnel.go:331 | decimal and hexadecimal numbers read back |
| Chunked.ChunkedWriter.Write | internal/proxy/tunnel.go:327-340 | appends one chunk for a non-empty write and nothing for an empty one |
| Chunked.ChunkedWriter.Close | internal/proxy/tunnel.go:342-344 | appends the last chunk |
| Chunked.ReadLineExact | internal/proxy/tunnel.go:331 | a reader finds the end of a line without a carriage return exactly where it was written |
| Chunked.ChunkedRoundTrip | internal/proxy/tunnel.go:327-344 | for every sequence of writes and any trailing bytes, a decoder for section 7.1 of RFC 9112 returns the concatenation and leaves the trailing bytes |
| Framing.LoopWriteHead | internal/proxy/tunnel.go:199-233 | appends exactly status line, forwarded fields in iteration order, the framing field and an empty line; `HeadersAreForwarded` and `StatusTextIsSent` say what these are |
| Framing.WriteForwarded | internal/proxy/tunnel.go:206-216 | appends the upstream fields that are forwarded, in iteration order; `HeadersAreForwarded` says which |
| FramingReader.HeadersAreForwarded | internal/proxy/tunnel.go:206-216 | a reader finds, under every name that is none of the nine hop-by-hop names and not Content-Length up to case, exactly the values the upstream sent, trimmed, in order and with repetition; under the others none of the upstream's |
| FramingReader.HopByHopIsDropped | internal/proxy/tunnel.go:24-34 | no hop-by-hop field of a parsed response is forwarded, in whatever case a reader compares names |
| FramingReader.ProxyFields | internal/proxy/tunnel.go:221-230 | the only values found under the names not forwarded are the length if known, else close if the connection closes, else chunked |
| Framing.LoopWriteBody | internal/proxy/tunnel.go:238-251 | appends nothing, the body, or the body in chunks, by content length alone |
| FramingReader.UpstreamFramingIsDropped | internal/proxy/tunnel.go:24-34 | no framing field of a parsed upstream header is forwarded, although the hop-by-hop set is looked up by exact name |
| FramingReader.CanonicalIsExact | internal/proxy/tunnel.go:24-34 | two names in net/textproto's canonical form that differ at most in case are the same |
| FramingReader.OneFramingField | internal/proxy/tunnel.go:221-230 | whatever the upstream headers were, the framing fields sent are the known length, else the chunk coding if the connection is kept, else none: exactly one if and only if head and body writer agree |
| FramingReader.FramingIsUnderstood | internal/proxy/tunnel.go:199-233 | a reader following section 6.3 of RFC 9112 derives the announced length, or chunks |
| FramingReader.MessageRoundTrip | internal/proxy/tunnel.go:199-251 | one response: the reader recovers the body and stops at the boundary, if and only if the length is known or Close is not set; otherwise it takes the chunk coding and all that follows for the body |
| FramingReader.ConnectionRoundTrip | internal/proxy/tunnel.go:155-175 | for every sequence of such responses on one connection the reader recovers exactly the list of bodies and what follows |
| FramingReader.StatusLineIff | internal/proxy/tunnel.go:199-204 | the status line is version, code and reason if and only if the upstream status text is empty or just the reason |
| FramingReader.StatusTextIsSent | internal/proxy/tunnel.go:199-204 | after version and code the line has the upstream status text, or the standard one if that is empty |
| FramingReader.StatusLineRepeatsCode | internal/proxy/tunnel.go:199-204 | for the status text of a parsed response the line has the code twice |
| FramingReader.ServeConnLoop | internal/proxy/tunnel.go:155-175 | writes the responses up to and including the first on which either side closes, and nothing after it |
| Instream.BigEndianRoundTrip | internal/scan/clamd.go:64 | four-byte lengths read back |
| Instream.StreamRoundTrip | internal/scan/clamd.go:58-83 | however the reader splits its data, the bytes sent decode to exactly its content, with no empty chunk before the terminator |
| Instream.SendFrames | internal/scan/clamd.go:61-78 | the loop over a reused buffer ends well exactly if the reader ends in end of file and the connection takes every frame, and then has sent exactly the frames |
| Instream.StreamToClamd | internal/scan/clamd.go:58-83 | nil is returned exactly if the reader was consumed to end of file and the connection took the whole stream |
| Instream.AnswerRoundTrip | internal/scan/clamd.go:86-107 | every threat name comes back unchanged; one line alone is clean; a line is a threat exactly if it ends in FOUND |
| Instream.ScanReader | internal/scan/clamd.go:38-55 | a result is returned exactly if clamd was dialled, took the command and the whole stream, the reader ended in end of file, and the answer is "stream: OK" or ends in " FOUND"; it is clean for the former and otherwise names the threat in the answer; what clamd got decodes to the reader's content |
| Instream.CommandSpells | internal/scan/clamd.go:46 | the command is nINSTREAM and a newline |
| Syslog.ThreeReplacementsAreOne | internal/logger/syslog5424.go:68-73 | the three successive replacements are one character-wise escape |
| Syslog.BuildSD | internal/logger/syslog5424.go:30-65 | the loop writes exactly the element with the sixteen parameters in order |
| Syslog.ParseValueExact | internal/logger/syslog5424.go:68-73 | a parser for section 6.3.3 of RFC 5424 undoes the escape and stops at the closing quote, for every value |
| Syslog.SDRoundTrip | internal/logger/syslog5424.go:30-73 | for all field contents, parsing returns the id and exactly the sixteen names with their nilified values, and leaves what follows |
| Syslog.EventIsRead | internal/logger/syslog5424.go:31-39 | the first four names are read back with the fields they name; an empty event type reads access |
| Syslog.RequestIsRead | internal/logger/syslog5424.go:40-43 | the next four likewise |
| Syslog.ResponseIsRead | internal/logger/syslog5424.go:44-51 | the last eight likewise, the numbers as numbers, negative ones included |
| Syslog.WrittenAlikeIff | internal/logger/syslog5424.go:30-80 | two records are written alike if and only if their parameters agree once nilified |
| Syslog.EmptyLooksLikeHyphen | internal/logger/syslog5424.go:75-80 | a record without a host and one whose host is a hyphen are written alike |
| BlocklistStore.Store.AddEntry | internal/api/blocklist.go:143-184 | a duplicate is refused exactly if the domain is there, and changes nothing; otherwise its row is new and enabled, no other row changes, one audit entry is added, and SADD and a notification are issued |
| BlocklistStore.Store.UpdateEntry | internal/api/blocklist.go:187-250 | not found exactly if the domain is absent, changing nothing; otherwise flag and comment are the requested ones or else the old ones, no other row changes, the audit entry says enable, disable or update, and SADD or SREM follows the flag if one was requested |
| BlocklistStore.Store.RemoveEntry | internal/api/blocklist.go:253-287 | not found exactly if the domain is absent, changing nothing; otherwise its row is gone, no other row changes, one audit entry is added, and SREM and a notification are issued |
| BlocklistStore.Store.SyncToRedis | internal/api/blocklist.go:48-79 | issues a rebuild from the enabled rows |
| BlocklistStore.ServeKeepsReplay | internal/api/blocklist.go:143-287 | every request keeps the audit log in step with the table's enabled flags |
| BlocklistStore.AuditRebuildsTable | internal/api/blocklist.go:143-287 | after every run, replaying the audit log rebuilds the map from domain to enabled |
| BlocklistStore.FlagIsLastSet | internal/api/blocklist.go:143-287 | after every run, a domain is in the table with a flag if and only if the last successful request that touched it set that flag |
| BlocklistStore.ResyncDrains | internal/api/blocklist.go:66-79 | executed on any Redis contents, a synchronisation leaves exactly the enabled rows |
| BlocklistStore.RedisConverges | internal/api/blocklist.go:48-79 | with all commands executed, the store synchronised and no change failed since, Redis holds exactly the enabled rows |
| BlocklistStore.ReplicaConverges | internal/proxy/blocklist_sync.go:58-70 | at rest, the set in Redis has changed since the replica's last load if and only if some message was lost (not published, nobody subscribed, load failed, or pending at a disconnect) after a change and nothing was loaded since that change; if not, a replica that ever loaded holds what Redis holds, and the enabled rows if those are in Redis |
| BlocklistStore.SubscribedStaysInStep | internal/proxy/blocklist_sync.go:58-70 | a subscribed replica that has loaded and missed nothing holds what Redis holds at every later moment of rest while no command or load fails and the subscription holds |
| BlocklistStore.ToldSnoc | internal/proxy/blocklist_sync.go:33-54 | how each further event changes whether the replica has loaded, is behind, and will not hear of it |
| BlocklistStore.NotificationHeals | internal/proxy/blocklist_sync.go:58-70 | whatever was lost before, one handled message puts a subscribed replica back in step for good while it is undisturbed |
| BlocklistStore.ReloadBeforeSubscribeLosesUpdate | internal/proxy/blocklist_sync.go:36-51 | a concrete run: no command or load fails, no disconnect, all is quiet, a domain is enabled, and the replica does not block it |
| BlocklistStore.MembersBlock | internal/proxy/blocklist_sync.go:20-28 | a list in any order blocks what the set of its members blocks |
| BlocklistStore.Replica.Reload | internal/proxy/blocklist_sync.go:20-28 | the list swapped in blocks exactly what the naive rule over the members blocks |
| BlocklistStore.BlocksEnabledRows | internal/proxy/blocklist_sync.go:20-28 | end to end: at rest with no change unheard or failed, the trie of the replica blocks a host, less its port if it has one, exactly if the naive rule over the enabled rows does |

## Left out

- Sockets, TLS, hijacking, the fields of certificates, SHA-256 and JSON. A content hash is represented by the content or a key.
- Read errors of the upstream and read, write and space errors of the file system, except that the temp file may fail to open.
- Changing MaxSize while a job runs, and 64-bit overflow of MaxSize+1 or of the counters.
- ResultCacheRuns.CountersAgree: does not cover races within one cache operation; the counters are exact only for atomic operations.
- LeafCache.ServedCertIsGood: likewise for atomic operations, and for Redis records whose stated expiry is not later than the certificate's own.
- The processes of the trickle protocol share their memory as one state value, so aliasing between a job and its trickle body is not captured.
- TrickleBody.Close, the fallback body when the temp file cannot be opened for reading, Read with an empty buffer, preset jobs, the job map and its cleanup.
- Writing to a client that has gone away, and whether an abort shows in the chunk framing: the last chunk is written in every case.
- Bodiless responses (HEAD, 204, 304, 1xx), protocol upgrade, server-sent events, the bridge, blocked pages and error pages.
- Parsing of requests; the connection loop takes its responses and the requests' close flags as inputs.
- FramingReader.MessageRoundTrip: does not cover a body shorter or longer than its announced length.
- The Redis and PostgreSQL clients, reconnect delays and database errors; a time to live of minus one nanosecond, which the Redis client reads as "keep", and times below a millisecond.
- The two Redis key prefixes of the result cache are separate key spaces in the model.
- Unicode case folding and trimming (text is ASCII).
- The header, timestamp and message part of a syslog line.
- Listing, paging, row ids and timestamps of the blocklist store; configuration, HTTP handlers, the frontend.
