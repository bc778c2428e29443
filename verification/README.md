# Verified model of the course project programs

This project models five programs of a system programming course and proves what they
are meant to guarantee. Each program is modelled twice where it changes state in place:
once as functions on values, which the theorems are about, and once as classes and loops
that follow the code and are proved to compute those functions.

* **The matchmaker (MP4).** One server hands requests to 20 children in turn and collects
  their answers in the same turn. `Matchmaking` holds the loop bodies as functions on
  values, `MatchChild` and `MatchServer` the same bodies on mutable tables, `MatchSystem`
  the interleaving of all 21 processes over FIFO pipes. `MatchHistory` proves the order of
  answers, `MatchPairing` the soundness of the partner table over all runs, and
  `MatchSequential` that the system refines a sequential matcher, from which the quality of
  its matches follows. `MatchProfiles` and `MatchChoices` say whom each answer pairs in all
  other runs. `MatchProgress` and `MatchSchedules` prove that the system never gets stuck and
  that every schedule brings in all answers; `MatchRuns` holds two runs that go wrong.
* **The thread pool and the file server (MP5).** `ThreadPool` interleaves the atomic steps
  of any number of callers and workers, with explicit program counters; `FileServer` adds
  the server's flags and its count of active threads. `PoolCalls` says that calls return and
  when they refuse, `ServerLoop` what the main loop's scans and dispatches come to, and
  `ConnectionOwners` when a connection has one worker only; `ConnectionRuns` is a run in
  which one has two.
* **The treasure hunt (MP3).** `MinerSearch` is the counter and the search loop of a miner
  and the boss's division of byte values. `TreasureHunt` is the optimistic protocol between
  boss and miners, `TreasureProofs` its invariant over all runs, `TreasureLoading` the
  level the boss starts from, `TreasureSearch` which strings the miners hash in a run,
  `TreasureNews` and `TreasureMail` what they are told and that nothing gets lost on the
  way, `TreasureClasses` the two programs' objects.
* **MD5 (MP1).** `Md5Spec` is the one-shot algorithm of RFC 1321. `Md5Context` relates
  streaming to it, `Md5Rounds` the unrolled compression, and `Md5Class` is the class with
  its buffer, two-word counter and padding, proved against both. `Md5Bits` and
  `Md5Primitives` hold the word operations; every other module takes them as a parameter.
* **Stored structures.** `HashTables`, `HashClass` and `HashIteration` are the chained hash
  table of MP5, as a value, as linked nodes and with its iterator; `PortRegister`,
  `PortNames` and `PortRegisterClass` are the port allocator on top of it. `CommitRecord`,
  `RecordFile`, `CommitMerge`, `CommitHistory` and `CommitSections` are the commit record of
  MP1: its printer, its backward reader, its merge, whole histories of commits and what is
  read in them.

Where the code departs from what it seems to intend, the model follows the code, and the
exact condition under which the intended property holds is a theorem:

* `try_match` clears `isDone` without looking at `pair`: the partner table stays sound
  exactly in runs where nobody with a partner asks again
  (`MatchPairing.PairedExactlyInQuietRuns`; `MatchRuns.AskingAgainOrphansThePartner`
  is a run that loses a partner).
* An answer from a client's earlier session may pair it in the next one
  (`MatchRuns.StaleAnswerPairs` is such a run). `MatchChoices.EveryChoice` says exactly whom
  an answer pairs in every run, and two users who have each asked once are paired only if
  they suit each other (`MatchProfiles.PairOfNewcomersIsCompatible`).
* A login message on a connection that a worker is handling puts the connection's flag
  down: each connection has at most one worker exactly in runs where the main loop hands
  out none whose record was replaced or dropped in the meantime
  (`ConnectionOwners.OneWorkerEachIff`; `ConnectionRuns.SecondLoginSharesTheConnection`
  is a run with two workers on one connection).
* The boss keeps the level that some beginning of the treasure reached, but announces the
  hash of all of it (`TreasureLoading.HashShowsTheLevelIff`;
  `TreasureLoading.LevelWithoutZeros` is a run at level 1 without a zero).
* The boss's ranges leave the upper byte values out unless the number of miners divides 256
  (`MinerSearch.FirstJobsCoverAllIff`, and over the runs `TreasureSearch.RunsCoverAllIff`).
* A job sent after a find has no range: each miner then tries one last byte only
  (`TreasureSearch.AfterFindTriesExactly`; `TreasureSearch.NobodyTriesOneAfterAFind` names a
  string that nobody tries).
* Deleting the head of a bucket loses the rest of its chain
  (`HashTables.DelIsMapRemovalIff`, `HashTables.HistoryIsThatOfAMapIff`;
  `HashTables.LossyHistoryLoses` is a history that loses a key).
* The port register asks `bind` twice in one clean pass; ports stay held back exactly when
  the answers agree (`PortRegister.AlwaysSafeIffPassesAgree`;
  `PortRegister.DisagreeingPassSharesAPort` is a history in which they do not).
* The loop test of `update` wraps at 32 bits (`Md5Class.LoopIsSafeIff`;
  `Md5Class.LongChunkOverruns` is a chunk for which it does).
* A round of reading the record backwards ends exactly if there is a `#` at or before the
  cursor (`CommitRecord.RoundEndsIff`).
* The headings of a commit are not kept apart from file names
  (`CommitSections.SectionsReadBackIff`).
* The merge of `Compare` stops at a deleted file: deletions at the end go unnoticed
  (`CommitMerge.NoChangeIff`), and later files keep their sections only under a condition
  (`CommitMerge.SectionsAreRightIff`; `CommitMerge.DeletionMisleads` shows both).

`dafny verify dfyconfig.toml` checks everything.

## Model

| member | source | states |
|---|---|---|
| MatchPairing.FirstWaitingIsWaiting | MP4/inf-bonbon-server.cpp:349-359 | The pair the server takes from an answer is one of its match records, and both users are still waiting |
| MatchChild.Child.FindMatches | MP4/child.cpp:165-237 | The scan of a child's queue in place collects exactly the compatible users it still sees ahead of the requester's own entry, asking the requester's filter first |
| MatchChild.Child.MatchStep | MP4/child.cpp:162-265 | One popped request writes exactly one group to the pipe, a count followed by that many records, and changes nothing but the queue of requests |
| MatchChild.Child.EraseUsers | MP4/child.cpp:284-288 | Exactly the entries of the two users become -1 |
| MatchChild.Child.InboxStep | MP4/child.cpp:266-317 | One message leaves the child's three tables as the value-level step says |
| MatchServer.Server.Collect | MP4/inf-bonbon-server.cpp:340-365 | One group is consumed whole, and the first pair still waiting in it is entered on both sides of the tables; nobody else is touched |
| MatchServer.Server.TryMatch | MP4/inf-bonbon-server.cpp:481-516 | The child whose turn it is gets TO_MATCH and every other one PUT_IN_QUEUE; the turn moves on by one |
| MatchServer.Server.Leave | MP4/inf-bonbon-server.cpp:409-431 | A departure marks both partners done, dissolves their pair on both sides and tells the children both names |
| MatchHistory.MineIsEveryTwentieth | MP4/inf-bonbon-server.cpp:497-516 | The m-th request dealt to child c is number c + 20m of all requests |
| MatchHistory.ReplyIsSelfDelimited | MP4/child.cpp:244-264 | Whatever follows an answer in the pipe, the server reads back exactly that answer |
| MatchHistory.NextGroup | MP4/inf-bonbon-server.cpp:340-351 | In a state that agrees with its history a pipe that is not empty starts with a whole group, the oldest answer not yet collected |
| MatchHistory.RunAgrees | MP4/child.cpp:158-318 | In every run every table, pipe and turn is the one that the sequence of broadcasts determines |
| MatchHistory.GroupsAnswerRequestsInOrder | MP4/inf-bonbon-server.cpp:340-347 | In every run the k-th group the server reads answers the k-th try_match, computed from some prefix of the broadcasts that contains it |
| MatchPairing.LeaveKeepsPaired | MP4/inf-bonbon-server.cpp:521-534 | Quitting keeps the partner table a symmetric pairing and changes it for the two partners only |
| MatchPairing.TryMatchKeepsPairedIff | MP4/inf-bonbon-server.cpp:481-483 | A new request keeps the partner table sound if and only if its sender has no partner |
| MatchPairing.SecondRequestOrphansPartner | MP4/inf-bonbon-server.cpp:481-483 | In any sound table, when a user with a partner asks again and is then paired with a third, the old partner still points at it |
| MatchRuns.AskingAgainOrphansThePartner | MP4/inf-bonbon-server.cpp:481-516 | A run of requests, answers and one repeated request reaches such a table, for any three clients with compatible profiles: it is not sound and the run is not quiet |
| MatchPairing.ChoiceIsSound | MP4/inf-bonbon-server.cpp:349-363 | No answer, however stale, makes the server pair a user with itself, with descriptor 0 or with somebody who is done |
| MatchPairing.PairedExactlyInQuietRuns | MP4/inf-bonbon-server.cpp:349-365 | In every run, with reused descriptors too, the table is a symmetric partial pairing of done users at every moment if and only if no user with a partner sends try_match |
| MatchSequential.FirstPartnerIsEarliest | MP4/child.cpp:170-235 | The reference matcher picks the earliest waiting compatible predecessor, and none exactly if there is none |
| MatchSequential.OldViewMakesCurrentChoice | MP4/child.cpp:170-235 | A list computed from any older view leads the server to the choice it would make now |
| MatchSequential.ChoiceIsVerdict | MP4/inf-bonbon-server.cpp:349-363 | When each client asks once, the server's choice is the reference matcher's verdict |
| MatchSequential.RunRefinesMatcher | MP4/inf-bonbon-server.cpp:340-536 | Every run in which each client asks once is, seen from outside, a run of a sequential matcher that serves requests in order of arrival |
| MatchSequential.NoCompatiblePairWaits | MP4/inf-bonbon-server.cpp:340-365 | In every such run, no two still waiting users among the requesters answered so far are compatible |
| MatchSequential.AnswerPairsWithEarliest | MP4/inf-bonbon-server.cpp:349-363 | In every such run a requester paired by its own answer gets the earliest compatible user still waiting at that moment, and is passed over only if it is done or there is none |
| MatchSequential.OneRequestEachIsQuiet | MP4/inf-bonbon-server.cpp:481-483 | In every such run the partner table is sound |
| MatchProfiles.EntryIsErasedIff | MP4/child.cpp:280-290 | Whatever a child has read, a queue entry is erased if and only if its user has left or been paired since that request |
| MatchProfiles.PairWasCompatible | MP4/inf-bonbon-server.cpp:349-363 | In every run, with repeated requests and reused descriptors too, the server pairs the sender of the request being answered with a user whose request suits that one both ways and who had neither left nor been paired since, as far as the child had read when it answered |
| MatchChoices.DoneIffNotWaiting | MP4/child.cpp:274-293 | Whatever has been broadcast, a user's flag is down if and only if one of its requests has not been followed by its departure or pairing |
| MatchChoices.EveryChoice | MP4/inf-bonbon-server.cpp:340-365 | In every run the server's choice, told from the broadcasts alone: the sender of the first request in order of arrival that suits the one answered, stood when the child had read so far and whose sender is still waiting; nobody if there is none, if a request of the requester's own that stood comes first, or if the requester is not waiting now or was not then |
| MatchProfiles.PairOfNewcomersIsCompatible | MP4/child.cpp:195-235 | In every run, two users who have each asked once are paired only if their profiles suit each other, whatever other clients do |
| MatchProgress.NeverStuck | MP4/inf-bonbon-server.cpp:340-347 | In every run in which an answer is missing, the server can read one, or the child whose turn it is has a message or a request to work on |
| MatchProgress.IdleMeansAnswered | MP4/child.cpp:158-318 | In every run, when all pipes and queues of requests are empty every request has been answered; and if each client asks once no two waiting users are compatible, whoever they are |
| MatchProgress.AllCanBeAnswered | MP4/child.cpp:158-318 | From every reachable state the server and its children can bring in all missing answers without any client acting |
| MatchSchedules.EachActionLeavesLess | MP4/child.cpp:158-318 | Whatever the server or a child does next, between the clients' actions, leaves less of a fixed measure of work |
| MatchSchedules.WorkIsBounded | MP4/child.cpp:158-318 | From every reachable state, under every schedule, the server and its children can do no more than that many things before a client acts again, and the requests stay the same |
| MatchSchedules.EveryScheduleAnswersAll | MP4/inf-bonbon-server.cpp:340-365 | However the server and its children are scheduled, when they can do nothing more every request has been answered |
| MatchRuns.StaleAnswerPairs | MP4/inf-bonbon-server.cpp:349-363 | A run in which a client leaves while its answer is in the pipe, comes back with a profile that suits nobody, and is paired by the old answer |
| ThreadPool.NextKeepsSound | MP5/src/thread.c:48-119 | Every atomic step of workers and callers keeps the hand-off invariant |
| ThreadPool.RunIsSound | MP5/src/thread.c:23-119 | In every interleaving, the hand-off invariant holds for every worker and every caller |
| ThreadPool.ExactlyOnce | MP5/src/thread.c:48-119 | In every interleaving, the multiset of tasks accepted is that of tasks called plus that of tasks pending |
| ThreadPool.PendingArgumentIsKept | MP5/src/thread.c:48-62 | A pending argument is not overwritten by any step, and the worker calls with that argument |
| ThreadPool.WaitingWorkerIsNotLost | MP5/src/thread.c:58-62 | A waiting worker is free, or launched, or in the hands of the caller inside run_task |
| PoolCalls.CallIsBounded | MP5/src/thread.c:94-119 | From every moment of every run and under every schedule a caller takes at most as many steps before it calls again as its place in run_task says, so a call returns after at most thread_num + 6 steps |
| PoolCalls.LockIsGivenBack | MP5/src/thread.c:97-117 | In every run a caller that cannot go on waits for the dispatch lock, and its holder can go on |
| PoolCalls.RefusedIffAllBusy | MP5/src/thread.c:98-118 | In every run run_task returns 0 if and only if each worker was busy when its scan came to it; otherwise the task is the newest of the first worker that was not |
| PoolCalls.LaunchedTaskIsCalled | MP5/src/thread.c:48-63 | Under every schedule a worker that was launched can go on, and after two steps of its own has called the argument it was given |
| PoolCalls.WorkerBecomesAvailable | MP5/src/thread.c:54-68 | Under every schedule a worker that is starting up or whose task runs can go on, and within two steps of its own is free for run_task |
| FileServer.CheckAndClearKeepsGood | MP5/src/csiebox_server.c:428-437 | The last step of a worker's request, clearing its flag, keeps every other raised flag tied to a worker |
| FileServer.DispatchKeepsGood | MP5/src/csiebox_server.c:407-408 | Raising a flag and entering run_task keeps the invariant between flags and workers |
| FileServer.RunTaskKeepsGood | MP5/src/csiebox_server.c:408-409 | Each step of run_task in the main thread keeps it too, and hands the flag over to the worker at the launch |
| FileServer.ActiveNeverExceedsPool | MP5/src/csiebox_server.c:226-234 | In every interleaving, with re-login, logout and reused descriptors, active_thread_num is at most the number of workers |
| FileServer.EveryFlagHasItsWorker | MP5/src/csiebox_server.c:396-437 | Outside a dispatch, every raised in_thread flag belongs to a busy worker that has yet to clear it |
| ServerLoop.ActiveIsWhatWasSeen | MP5/src/csiebox_server.c:226-234 | In every run the published number is that of the connections whose flag was up when the last scan came to them, and only the end of a scan changes it |
| ServerLoop.ScanTellsWhatItSaw | MP5/src/csiebox_server.c:226-234 | In every interleaving of a scan, the number lies between those of the flags up throughout and of the flags up at some time; and the connections that may be handed out between those with the flag down throughout and those with it down at some time |
| ServerLoop.SteadyScanIsExact | MP5/src/csiebox_server.c:226-234 | If no record changes during a scan, it publishes exactly how many flags are up and may hand out exactly the connections whose flag is down |
| ServerLoop.PoolRunsAsAlone | MP5/src/csiebox_server.c:407-409 | In every run the server's pool is in a state of a run of the pool alone, so that all results on the pool apply |
| ServerLoop.DispatchIsBounded | MP5/src/csiebox_server.c:407-409 | In every interleaving a dispatch never blocks and ends within thread_num + 6 steps of the main thread |
| ServerLoop.RefusedIffPoolIsBusy | MP5/src/csiebox_server.c:408-424 | In every run a dispatch ends in the busy reply if and only if each worker was busy when run_task came to it |
| ServerLoop.FinishedRequestIsServedAgain | MP5/src/csiebox_server.c:428-437 | After a worker has handled a request its client is logged in with the flag down, and unless something else happens to that client the next scan makes its next request ready to be handed out |
| ServerLoop.RecordsFollowLogins | MP5/src/csiebox_server.c:498-525 | In every run the connections that have a client record are those that have logged in and not out again, whichever thread handled it |
| ConnectionOwners.DispatchIff | MP5/src/csiebox_server.c:396-409 | Handing out a connection keeps one worker per connection if and only if its client record was not replaced or dropped while somebody had it |
| ConnectionOwners.StepKept | MP5/src/csiebox_server.c:226-437 | No other step can give a connection to two workers, and a connection held whose record was kept has its flag up and is not up for handing out |
| ConnectionOwners.OneWorkerEachIff | MP5/src/csiebox_server.c:226-269 | In every interleaving: at every moment no two workers have one connection and the main thread hands out none a worker has, if and only if it never hands out one whose record a login or logout replaced or dropped while it was held |
| ConnectionRuns.SecondLoginSharesTheConnection | MP5/src/csiebox_server.c:498-503 | For every pool of two workers or more and every connection in the scan's reach, a run that ends with two workers on it: a second login message, the next scan and the next dispatch |
| Md5Primitives.FChooses | MP1/md5/md5.cpp:62-64 | F is the bitwise choice between y and z by x |
| Md5Primitives.GChooses | MP1/md5/md5.cpp:66-68 | G is the bitwise choice between x and y by z |
| Md5Primitives.HIsParity | MP1/md5/md5.cpp:70-72 | H is the bitwise parity |
| Md5Primitives.ICompares | MP1/md5/md5.cpp:74-76 | I is y against "x or not z", bit by bit |
| Md5Primitives.RotationSwapsEnds | MP1/md5/md5.cpp:79-81 | Rotation by n puts the upper n bits below the rest |
| Md5Rounds.Unrolled | MP1/md5/md5.cpp:162-246 | The 64 unrolled register updates are the 64 rotating operations of section 3.4 of RFC 1321 |
| Md5Class.MD5.Transform | MP1/md5/md5.cpp:162-246 | transform adds the compression of one block into the state |
| Md5Class.Encode | MP1/md5/md5.cpp:149-157 | The array receives the little-endian bytes of the words and is unchanged after them |
| Md5Class.Decode | MP1/md5/md5.cpp:138-143 | The 16 words are the little-endian words of the block |
| Md5Context.DecodeInvertsEncode | MP1/md5/md5.cpp:138-157 | decode inverts encode on every array of words |
| Md5Context.EncodeInvertsDecode | MP1/md5/md5.cpp:138-157 | encode inverts decode on every array of whole words |
| Md5Class.CountPairAdds | MP1/md5/md5.cpp:257-260 | The two 32-bit words with carry and length >> 29 add 8 * length modulo 2^64 |
| Md5Class.LoopIsSafeIff | MP1/md5/md5.cpp:275-276 | The 32-bit loop test takes exactly the whole blocks if and only if the chunk is too short for i + blocksize to wrap |
| Md5Class.LongChunkOverruns | MP1/md5/md5.cpp:275-276 | A first chunk of 2^32 - 1 bytes is too long: the test lets in a block beyond its end |
| Md5Class.MD5.TransformBlocks | MP1/md5/md5.cpp:275-276 | The loop compresses exactly the whole blocks of the rest of the chunk |
| Md5Class.MD5.Update | MP1/md5/md5.cpp:252-285 | update takes buffer, count and state to those of the absorbed chunk, given the chunk is short enough for the loop test |
| Md5Class.MD5.Finalize | MP1/md5/md5.cpp:299-331 | finalize stores the digest, zeroes buffer and count, and does nothing a second time |
| Md5Class.MD5.Init | MP1/md5/md5.cpp:121-133 | The fresh context |
| Md5Class.MD5.Of | MP1/md5/md5.cpp:112-117 | The shortcut constructor leaves the digest of RFC 1321 of the whole text |
| Md5Class.MD5.HexDigest | MP1/md5/md5.cpp:336-347 | The hexadecimal digest, or nothing before finalize |
| Bytes.HexReadsBack | MP1/md5/md5.cpp:336-347 | The printed digest is lower-case hexadecimal, two digits a byte, from which the bytes can be read back |
| Md5Class.PrintedMd5 | MP1/md5/md5.cpp:384-387 | What is recorded for a file is the hexadecimal MD5 of RFC 1321 of the bytes read |
| Md5Class.DigestOfPieces | MP1/md5/md5.cpp:252-331 | However a message is cut into update calls, finalize leaves the one-shot digest of the concatenation |
| Md5Context.AbsorbIsAdditive | MP1/md5/md5.cpp:252-285 | Absorbing two chunks is absorbing their concatenation, from any context |
| Md5Context.AnySplittingGivesTheDigest | MP1/md5/md5.cpp:252-331 | For every splitting, absorbing the pieces and finishing gives the one-shot digest of sections 3.1 to 3.5 of RFC 1321 |
| Md5Context.CountAndBufferFollowBytes | MP1/md5/md5.cpp:254-263 | The count is 8 times the bytes absorbed modulo 2^64, the buffer holds the bytes since the last block, and padding of 1 to 64 bytes reaches 56 modulo 64 |
| MinerSearch.Mine.Grow | MP3/client/miner.cpp:84-88 | When all bytes have wrapped the buffer becomes zeros, one more than before |
| MinerSearch.Mine.Mining | MP3/client/miner.cpp:83-102 | The in-place recursion turns the first ptr bytes into their successor when the rest has wrapped to zeros |
| MinerSearch.Mine.Advance | MP3/client/miner.cpp:231 | One call advances the buffer to its successor |
| MinerSearch.SuccessorRaisesRankByOne | MP3/client/miner.cpp:83-102 | The bijective base-256 rank rises by exactly one and the length by at most one |
| MinerSearch.RankIsInjective | MP3/client/miner.cpp:83-102 | No two strings share a rank, so counting repeats none |
| MinerSearch.EveryStringIsNth | MP3/client/miner.cpp:83-102 | Counting up from the empty string reaches every string |
| MinerSearch.PrefixesNeverShrink | MP3/client/miner.cpp:227-232 | A candidate comes up before any longer prefix does |
| MinerSearch.CandidateIsTried | MP3/client/miner.cpp:227-238 | Whenever a string is hashed, the buffer has so far held no more than its prefix |
| MinerSearch.TriesItsRange | MP3/client/miner.cpp:227-238 | A first job tries every string whose last byte is in its range, and the single bytes below it, before the buffer holds more than the string's prefix |
| MinerSearch.NeverBeyondRange | MP3/client/miner.cpp:227-238 | It never tries a last byte beyond its range |
| MinerSearch.FirstJobTriesExactly | MP3/client/miner.cpp:227-238 | A first job tries a string if and only if its last byte is at most the end of the range and, unless it is one byte long, at least the start |
| MinerSearch.NoStringTwiceIff | MP3/server/boss.cpp:155-179 | No two miners' first jobs share a string longer than one byte if and only if there are at most 256 miners |
| MinerSearch.AssignJobs | MP3/server/boss.cpp:155-179 | The loop deals out the ranges of the recursive definition |
| MinerSearch.RangesAreEqualShares | MP3/server/boss.cpp:155-179 | Miner i gets the i-th run of 256 / num byte values |
| MinerSearch.FirstJobsCoverAllIff | MP3/server/boss.cpp:155-179 | While nothing is found, all miners together try every non-empty string whose prefix fits a buffer of any given capacity, without the buffer having held more by then, if and only if their number divides 256 |
| TreasureSearch.MinersSearchInOrder | MP3/client/miner.cpp:165-238 | In every run each miner has hashed, turn by turn, what the enumeration lists from where its newest job set it, and a working miner goes on there; the first job sets it to its share of the byte values, a later one to the start of that share |
| TreasureSearch.HashedIffTried | MP3/client/miner.cpp:227-238 | For every string, some number of turns each is enough in every run in which nothing has been found to have it hashed before anything longer, if and only if a first job tries it |
| TreasureSearch.RunsCoverAllIff | MP3/server/boss.cpp:155-179 | In the runs of the hunt, until something is found, all non-empty strings whose prefix fits are hashed if and only if the number of miners divides 256 |
| TreasureSearch.AfterFindTriesExactly | MP3/client/miner.cpp:188-232 | After an accepted find a miner tries [0] and the longer strings that end in the start of its range, and nothing else |
| TreasureSearch.NobodyTriesOneAfterAFind | MP3/server/boss.cpp:173-178 | So no miner tries the string [1] after a find, however many there are |
| TreasureHunt.TreasureCount | MP3/server/boss.cpp:26-44 | The count becomes the digest's leading zeros if they are more, and only then the printed hash is replaced |
| TreasureClasses.ServerConfig.Load | MP3/server/boss.cpp:46-97 | One call absorbs the next packet of the treasure, or ends the loading |
| TreasureClasses.ServerConfig.HandleTreasure | MP3/server/boss.cpp:284-322 | A report exactly one level up replaces level, context and hash and extends the appended bytes; any other changes nothing |
| TreasureClasses.Worker.Receive | MP3/client/miner.cpp:161-211 | A job sets the miner's fields as its mode says; mode 1 leaves start_tmp and mode 3 leaves start alone |
| TreasureClasses.Worker.Turn | MP3/client/miner.cpp:227-271 | One turn hashes the next candidate; a find is stored, reported with its context and stops the work |
| TreasureClasses.ExactlyOneMore | MP3/client/miner.cpp:240-243 | The scan succeeds if and only if the digest has exactly one more leading zero than the level |
| TreasureProofs.StepKeepsSound | MP3/server/boss.cpp:423-520 | Every step of boss and miners keeps the hunt's invariant |
| TreasureProofs.RunIsSound | MP3/server/boss.cpp:423-520 | In every run every context in flight belongs to a level the boss has had, and every miner is occupied |
| TreasureProofs.AcceptedFindsExtendTheBest | MP3/server/boss.cpp:312-319 | However reports race, the boss's context is that of the treasure followed by the appended bytes, its hash is that context's, each accepted find adds one level, and after the first the hash has that many leading zeros |
| TreasureLoading.OneEndMore | MP3/server/boss.cpp:65-80 | One more packet end lengthens the longest ladder of scores 1, 2, 3 and so on exactly if it scores one more than that |
| TreasureLoading.LoadedLevelIsLongestLadder | MP3/server/boss.cpp:46-97 | In every run the level loading ends with is the length of the longest ladder: packet ends, one after the other, at which the treasure so far scores 1 up to that level, and none later that scores one more |
| TreasureLoading.PrintedWhileLoading | MP3/server/boss.cpp:26-44 | In every run, until loading is done the printed hash is that of the last prefix of the treasure that ends with a packet and scores anything |
| TreasureLoading.PacketSizeIs | MP3/server/boss.cpp:66-67 | Treasures under a million bytes are read byte by byte, larger ones in packets that number about a million |
| TreasureLoading.LoadingIsBounded | MP3/server/boss.cpp:55-96 | In every run loading is done after at most 2000001 of the boss's steps, however large the treasure |
| TreasureLoading.HashShowsTheLevelIff | MP3/server/boss.cpp:87-95 | In every run the announced hash has as many zeros as the level if and only if a find has been accepted or the whole treasure scores what loading ended with |
| TreasureLoading.LevelWithoutZeros | MP3/server/boss.cpp:74-95 | A run in which the boss announces level 1 with a hash that starts with no zero |
| TreasureProofs.AnnouncedHashIsTheDigest | MP3/server/boss.cpp:89-95 | With MD5 as the hash, the announced hash is the RFC 1321 digest of the treasure followed by the appended bytes |
| TreasureProofs.OvertakenReportsChangeNothing | MP3/server/boss.cpp:312 | A report the boss has overtaken never counts in any continuation, and reading it changes only its queue |
| TreasureProofs.NobodyIsStranded | MP3/server/boss.cpp:510-518 | Once loading is done every miner has an unread job of the boss's level, or works at that level, or has an unread report one above it |
| TreasureProofs.QuietHuntersWorkOnTheBest | MP3/client/miner.cpp:165-200 | A miner with nothing unread either way works on exactly the boss's context |
| TreasureProofs.FinishedDumpIsTheBest | MP3/server/boss.cpp:482-509 | A dump holds, when it is closed, the treasure followed by the appended bytes, whose hash is the announced one |
| TreasureNews.WinnersAreTold | MP3/server/boss.cpp:312-319 | In every run each message of a find on its way names the miner whose find led to the level it announces, with the hash of that level and as many zeros; and the boss's winner is the last whose find it accepted |
| TreasureMail.JobsArriveInOrder | MP3/server/boss.cpp:152-222 | In every run what a miner has read and what is still in its pipe are together what the boss has sent it, in that order: its range when loading ends, each status request, each accepted find |
| TreasureMail.ReportsArriveInOrder | MP3/client/miner.cpp:240-268 | In every run what the boss has read from a miner and what is still in that pipe are together the finds the miner has made, in order |
| TreasureMail.DumpsGetWritten | MP3/server/boss.cpp:482-509 | In every run there is a dump for each time one was asked for; it is closed after one piece for every 3000000 bytes begun and one more, and then holds the treasure and what had been appended by some moment |
| HashTables.CRemainderTruncates | MP5/src/hash.c:21 | C's remainder has the sign of the code, is smaller than the divisor and leaves a multiple of it |
| HashTables.PositionIsModulo | MP5/src/hash.c:21-24 | The bucket computed with C's remainder and the correction is the mathematical remainder, for negative codes too |
| HashTables.GetReadsTheMap | MP5/src/hash.c:58-75 | get finds a code if and only if the map has it, with the map's value |
| HashTables.PutRefinesTheMap | MP5/src/hash.c:19-56 | put adds a new key, and refuses one that is there without changing the map |
| HashTables.DelRemovesTheKey | MP5/src/hash.c:101-126 | del returns the key's value and removes it; survivors keep their values, and what is lost besides is exactly the rest of the chain when the key heads it |
| HashTables.DelIsMapRemovalIff | MP5/src/hash.c:114-118 | del is the removal of one key from the map if and only if the key does not head a longer chain |
| HashTables.HistoryIsThatOfAMapIff | MP5/src/hash.c:19-126 | Over every history of puts, gets and dels the table is the map they would build at every moment if and only if no del hits the head of a longer chain, and then all outcomes agree |
| HashTables.LossyHistoryLoses | MP5/src/hash.c:114-118 | For every size there is such a history of four operations: a key put and never deleted is not found |
| HashClass.Hash.Init | MP5/src/hash.c:6-17 | An empty table, unless the size is not positive, there is one already or memory runs out |
| HashClass.Hash.Put | MP5/src/hash.c:19-56 | The linked lists in the bucket array end up as the value-level put says; without memory they stay as they are and the call is refused |
| HashClass.Hash.Get | MP5/src/hash.c:58-75 | The walk finds what the value-level get finds |
| HashClass.Hash.Del | MP5/src/hash.c:101-126 | Relinking, or clearing the bucket, leaves the value-level del |
| HashIteration.EachStepLeavesOneFewer | MP5/src/hash.c:179-199 | Every step leaves one node fewer to visit, so the iteration ends |
| HashIteration.IterationVisitsEachNodeOnce | MP5/src/hash.c:162-199 | init and then add visit every stored node, each once |
| HashIteration.HashIterator.Init | MP5/src/hash.c:162-177 | The iterator stands at the first node, or at the end of an empty table |
| HashIteration.HashIterator.Add | MP5/src/hash.c:179-199 | The iterator moves to the next node, or to the end |
| PortRegister.BookedPortIsFresh | MP5/src/port_register.c:109-136 | A booking fails if and only if no port is left; otherwise its port was free and no record had it |
| PortRegister.GetAfterClean | MP5/src/port_register.c:245-271 | A clean pass keeps a record if and only if its port and that of the head of its bucket are in use |
| PortRegister.BookKeepsSafe | MP5/src/port_register.c:109-136 | Booking keeps all ports different, in range and held back |
| PortRegister.CleanKeepsSafeIff | MP5/src/port_register.c:222-273 | Cleaning always keeps ports different; it keeps them held back if and only if the second round of bind calls agrees about each surviving record |
| PortRegister.AlwaysSafeIffPassesAgree | MP5/src/port_register.c:67-105 | Over every history, all live records always have different ports, in range and held back, if and only if every clean pass agreed with itself |
| PortRegister.StableHistoriesAreSafe | MP5/src/port_register.c:222-273 | Over every history in which no bind answer changes during a pass, all live records always have different ports, in range and held back |
| PortRegister.DisagreeingPassSharesAPort | MP5/src/port_register.c:245-273 | A pass that does not agree can make two names share a port |
| PortNames.CodeIsWrappedOnce | MP5/src/port_register.c:157-163 | Wrapping to 32 bits in every step gives the code that wrapping once at the end would |
| PortNames.LastByteTells | MP5/src/port_register.c:157-163 | Names that differ in their last byte only have different codes |
| PortNames.WebPortIsKept | MP5/src/port_register.c:149-155 | A name that has a port gets it again and nothing changes; one that has none is booked, gets the same when asking again, and no other name's port changes |
| PortNames.PortIsKept | MP5/src/port_register.c:109-155 | Over every history a name keeps its port, and web requests give it, until its code is booked again or a clean pass does not spare its record |
| PortNames.ToldPortIsKept | MP5/src/port_register.c:109-155 | Over every history a port told to the sender of a booking or web request is what asking for that name gives, until it is disturbed |
| PortRegisterClass.Registry.GetNextPort | MP5/src/port_register.c:165-174 | The scan reserves and returns the first free port, or returns -1 |
| PortRegisterClass.Registry.BookPort | MP5/src/port_register.c:109-136 | Booking as the value-level step says: a known name is moved to the new port |
| PortRegisterClass.Registry.GetPort | MP5/src/port_register.c:138-147 | The port of the name's record, or -1 |
| PortRegisterClass.Registry.WebPort | MP5/src/port_register.c:149-155 | The name's port if it has one, else a new booking |
| PortRegisterClass.Registry.CheckPortReserve | MP5/src/port_register.c:222-243 | Afterwards exactly the ports in use are held back |
| PortRegisterClass.Registry.CleanChain | MP5/src/port_register.c:252-271 | Deleting while walking one bucket leaves nothing if its head went, else the records whose ports are in use |
| PortRegisterClass.Registry.CleanPortReserve | MP5/src/port_register.c:245-273 | The whole pass leaves the value-level clean |
| RecordFile.Stream.Seek | MP1/main.cpp:83-96 | fseek refuses a target before the beginning and then leaves the cursor alone |
| RecordFile.Stream.FetchOne | MP1/main.cpp:88-102 | One round reads backwards to the last '#', puts the text in order and leaves the cursor before the separating newline, or at 0 |
| RecordFile.Stream.FetchRecord | MP1/main.cpp:79-105 | On every record on which all its rounds end, the loop over the cursor is the backward reading of the value-level definition |
| CommitRecord.LogPrintsTheNewest | MP1/main.cpp:79-105 | Reading n commits backwards gives the last min(n, total), newest first, one newline between them |
| CommitRecord.RoundEndsIff | MP1/main.cpp:88-102 | A round of the backward reading ends if and only if there is a '#' at the cursor or before it |
| CommitRecord.PrintedCommitIsText | MP1/main.cpp:200-201 | A printed commit has its only '#' at the start and ends in a newline, so the separator makes one blank line |
| CommitRecord.ValueOfDecimal | MP1/main.cpp:113-118 | stoi inverts to_string |
| CommitRecord.ParseInvertsText | MP1/main.cpp:113-136 | Parsing a printed commit recovers its number and its exact list of names and digests, for names free of space, newline, '#' and ')' |
| CommitSections.SectionsReadBackIff | MP1/main.cpp:138-202 | From a printed commit its number and the new, modified and copied files are read back, from the title and under the three headings, for plain names, if and only if no new file is called [modified] and no modified one [copied] |
| CommitHistory.ReadFiles | MP1/main.cpp:126-136 | The parsing loop is the recursive definition |
| CommitMerge.Compare | MP1/main.cpp:138-194 | The two-index loop sorts every file into the sections of the value-level pass and reports a change exactly as it does |
| CommitMerge.PutUnseen | MP1/main.cpp:149-158 | A file taken for unseen is new, or copied from the last file with its digest, or left out; inserting "" into the map changes no later lookup |
| CommitMerge.NoChangeIff | MP1/main.cpp:143-194 | isChange is false if and only if the new list is the beginning of the old one |
| CommitMerge.UnchangedMeansEqual | MP1/main.cpp:143-194 | With nothing deleted, isChange is false if and only if the lists are equal |
| CommitMerge.SectionsAreRightIff | MP1/main.cpp:145-176 | The pass puts every file in the right section if and only if each kept file after a deleted one is the last old file with its contents |
| CommitMerge.DeletionMisleads | MP1/main.cpp:145-176 | Two directories that the pass gets wrong: an unchanged file reported as a copy, and a deletion that goes unnoticed |
| CommitMerge.SectionsMeanWhatTheySay | MP1/main.cpp:145-194 | With both lists sorted and nothing deleted: new is unseen name and digest, copied is unseen name and known digest, modified is same name and other digest, and the recorded list is the directory's |
| CommitSections.FirstCommitListsAllAsNew | MP1/main.cpp:235-240 | In every history of sorted directories all names of the first commit are read under [new_file] and none under the other headings |
| CommitSections.SectionsReadAsDefined | MP1/main.cpp:145-202 | In every such history, of every later commit before which nothing was deleted, the names read under each heading of its text are the set definitions |
| CommitSections.NewestIsRead | MP1/main.cpp:79-105 | What reading one commit from the record gives is the text of the newest |
| CommitHistory.RecordIsTheHistory | MP1/main.cpp:196-245 | After any sequence of commits the file is the text of all commits made, in order and numbered from 1 |
| CommitHistory.RecordReadsBack | MP1/main.cpp:107-136 | After any sequence of commits the last one reads back with its number and exact list, and log n shows the last min(n, total) |
| CommitHistory.LastCommitCovers | MP1/main.cpp:196-202 | After committing a directory, its list is the beginning of the last commit's |
| CommitHistory.Keeper.Commit | MP1/main.cpp:227-245 | One commit, through the stream and the loops, takes the record file to the value-level result |
| CommitHistory.Keeper.Log | MP1/main.cpp:247-258 | log prints what the backward reading yields |

## Left out

* Sockets, FIFO creation, `select` timing, `fork`, `dlopen`, compiling filters, signals and
  daemonizing. Pipes are FIFO sequences, a filter is a total predicate, and a filter that
  crashes answers "no".
* Shared memory in MP5 is sequentially consistent: each access is one atomic step. Weaker
  memory orders, which the unprotected `busy` and `in_thread` flags would also allow, are
  not part of this model. Checking a client record and clearing its flag is one step, and
  so is one index of the scan, which reads a flag once for the count and once for the set
  of connections to watch.
* A null client record that is dereferenced ends the run of the file server there.
* MP4 broadcasts are one step each; the pipes' capacities and a server stopped halfway
  through a broadcast are not modelled, nor are the `EXIT` message, `handle_msg`, JSON and
  the texts sent to clients.
* Which connections `select` reports: the main loop may hand out any that the scan found
  with its flag down.
* `destroy_task_thread`, `destroy_thread_pool`, `clean_hash`, `destroy_hash`, freed memory
  and failing `malloc` outside the hash table; `get_from_hash_by_path`, which returns a bucket index.
* MP3: the greeting message (mode 0), `quit` and its messages, partial reads of pipes, the
  1000-byte buffers for appended bytes and candidates. OpenSSL's MD5 is a parameter that
  only has to absorb bytes in pieces as it does at once; this project's MD5 is one such. A
  report is read as one message.
* The packet buffer of 8192 bytes in `MD5` of boss.cpp, enough for the packets of treasures
  up to 8 GB.
* MP1: what `md5(dir, file)` hashes for files of fewer than 8 bytes, where it reads with
  `fscanf`; reading directories, configuration and command line; printing of `status`.
* MP1: the commit number is unbounded; `stoi` beyond 32 bits is not modelled. A record on
  which a round of `fetch_record` finds no `#` and does not end, and one whose last commit
  does not parse, are outside the program's own files.
* The derivation of MD5's sine constants, cryptographic strength, and any claim that
  different names have different hash codes in the port register.
- PortRegisterClass.Registry.BookPort: the records are a value of type Table, not linked nodes; writing through the record pointer is an update of that value, so sharing of record pointers is not captured.
- PortRegisterClass.Registry.WebPort: leaves out `htonl`, the byte order of the reply.
- MatchHistory.NextGroup: an answer is written in one step here; the source writes its count and each record with a call of their own, so the server can read a count and wait for its records.
- Md5Class.MD5.Update: covers chunks for which the 32-bit loop test does not wrap; for a longer one the source's loop reads beyond its input (`Md5Class.LoopIsSafeIff` says exactly when), and what it computes is not defined.
- Md5Class.MD5.TransformBlocks: the same chunks as `update`.
- Md5Class.MD5.Of: the same texts as `update`, whose length parameter has 32 bits.
- Md5Class.PrintedMd5: the same texts as `update`.
- Md5Class.DigestOfPieces: every piece shorter than 2^32 - 64 bytes.
- MinerSearch.Mine.Mining: needs room for one more byte, which the source does not check; writing past the buffer is not modelled.
- MinerSearch.Mine.Grow: the same room as `mining`.
- MinerSearch.Mine.Advance: the same room as `mining`.
- RecordFile.Stream.FetchRecord: asks for a `#` at or before the cursor in each round it starts; without one the source's round does not end (`CommitRecord.RoundEndsIff`).
- RecordFile.Stream.FetchOne: asks for a `#` at or before the cursor, for the same reason.
- TreasureClasses.Worker.Turn: asks for room for two more bytes in the candidate buffer; the source does not check.
- TreasureClasses.ServerConfig.HandleTreasure: the appended bytes are unbounded, the source's buffer holds 1000.
- CommitHistory.Keeper.Commit: opening and closing the file are not modelled, and the sections are collected as lists and printed at the end instead of being accumulated as text.
