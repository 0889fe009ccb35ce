# OxynDB: a verified model

OxynDB runs copy-on-write branches of a PostgreSQL database and keeps a tamper-evident ledger of every schema
change (the Blackbox). This project models the parts of its engine whose correctness is not visible from one
function, and proves what they are for. `dafny verify dfyconfig.toml` checks everything.

| file | what it models |
|---|---|
| `text.dfy`, `hashing.dfy`, `sorting.dfy` | numerals, joining and splitting, byte order; SHA-256 as a parameter; sorting by a key |
| `rows.dfy` | ledger rows and the text that is hashed of them |
| `merkle.dfy` | the Merkle root that repeats the last node of odd levels |
| `chain.dfy` | the hash chain with legacy rows, as a walk and as a SQL window query |
| `integrity.dfy` | checkpoint anchors and `Verify` |
| `tampering.dfy` | what an intact report says about the history |
| `checkpoints.dfy`, `ledgerruns.dfy` | taking checkpoints, and every run of appends, checkpoints and clones |
| `ha.dfy` | enable, failover, failback, disable, up, down, suspend and wake as a protocol of single commands over two servers, a pointer and replicated logs |
| `haoperator.dfy` | the same actions as the engine runs them, step by step, following that protocol |
| `lexer.dfy`, `targets.dfy` | the SQL lexer, the identifier quoter, and the object a DDL statement changes |
| `diff.dfy` | the comparison of two branches' histories |
| `collector.dfy` | psql's error lines, collected from chunks |
| `forest.dfy` | branches as ZFS clones, with commands that fail |
| `wire.dfy`, `gateway.dfy` | PostgreSQL startup packets and messages (section 55.7 of the PostgreSQL 16 documentation), the startup relay and cancel keys |
| `versions.dfy`, `releases.dfy` | release versions and which release an update installs |
| `positions.dfy` | WAL positions and segment names |

## How to read it

- What the source computes step by step is a method (with the source's loops, or a class with its fields), proved
  equal to a function of its inputs or of the old state; the theorems are lemmas about those functions and about
  runs.
- SHA-256 is a parameter. No theorem assumes it has no collisions at all (no such function exists): each assumes
  that no two of the finitely many strings it names collide.
- A command that talks to Docker, ZFS, psql or the network is a step that may fail; how it turns out is an input
  (`Outcome`, `Fate`, `Io`). Loops that wait for something are one step.
- Go's `int64` ids and counters are unbounded integers. WAL positions, message lengths and version numbers have
  the source's bounds.

## Main results

- **Tamper evidence.** A ledger is reported intact exactly when its chain is consistent and every anchored id range
  holds, row for row, the hashed text and capture hash that was anchored — even if the whole chain was recomputed.
- **Merkle binding.** For equal lengths the root determines every leaf; in general two roots are equal exactly when
  the leaf lists expand to the same full tree. That is why an anchor's entry count matters.
- **Checkpointing is complete.** In every run of appends, checkpoints and clones, every branch verifies intact
  exactly when no anchor file between two others is missing.
- **No split brain, no lost write.** In every run of the HA actions, whatever fails and in whatever interleaving with
  writes, replication and crashes, two servers accept writes only between a failover's promotion and its stop of the
  old primary; served history only grows except where a failover moves the pointer (and then only what the standby
  had not received goes) or where a failback does after an unclean stop of the standby.
- **Round trips.** Lexer normal form; quoted identifiers and printed DDL; startup packets; message framing; versions;
  WAL positions. Each is an exact condition where it does not hold for all inputs.
- **Exactness.** The diff, the error collector under any chunking, the branch forest under failing commands, and the
  release choice are proved equal to independent descriptions of what they should be.

## Where code and documentation disagree

- Failback promises to keep every write (`internal/branch/ha.go:259-263`), reasoning that a clean shutdown sends all
  remaining WAL. The code does not check that the shutdown was clean: `docker stop` also succeeds when the server is
  killed, and the control file then still names an older position. `HA.FailbackKeepsEveryWriteIff`: that main holds
  every write when it is promoted is true of all runs in which the standby was shut down in order — the control file
  records whether it was — and not of the others; `HA.UncleanStopLosesAWrite` is a run that loses one.
- The chain walk is described as the same check as the SQL query (`internal/ledger/integrity.go:264-266`). They differ
  when the first chained row has a NULL link, and when a stored hash is the empty string: `Chain.VerdictsAgree` and
  `Chain.ChainedCounts` say that these are the only cases, `Chain.NullLinkDivides` and `Chain.EmptyHashDivides` are
  tables that show them.
- Reset is described as re-creating a branch. It does so exactly when branch and parent exist and the parent is
  neither the branch itself nor cloned from it; otherwise the branch is destroyed and cannot be made again:
  `Forest.Storage.Reset`, and `Forest.ResetCanLoseTheBranch` for a pool in which both refused parents exist.
- A cancel key is documented as registered when a session starts and removed when it ends
  (`internal/proxy/proxy.go:86-89`). If the backend sent a second, different key, or the startup phase failed after a
  key, one stays: `Gateway.Proxy.Handle` says exactly when, `Gateway.FailedStartupLeavesAKey` and
  `Gateway.SecondKeyLeavesTheFirst` are such startups.

## Model

| member | source | states |
|---|---|---|
| Rows.FormatAtInjective | internal/ledger/integrity.go:71-78 | two instants between the years 0 and 9999 render alike exactly when they agree to the microsecond, although trailing zeros are dropped |
| Rows.PreimageInjective | internal/ledger/integrity.go:58-66 | rows with '\|' in no field but the statement hash the same text exactly when all hashed fields agree |
| Rows.PreimageAmbiguousWithBars | internal/ledger/integrity.go:58-66 | with '\|' in another field, two different rows hash the same text |
| Merkle.MerkleRoot | internal/ledger/integrity.go:97-119 | the level-by-level loop terminates and computes the root of the recursive tree in which a missing right child is the left one |
| Merkle.RootBindsEqualLengths | internal/ledger/integrity.go:97-119 | for leaf lists of equal length the roots are equal exactly when all leaves are |
| Merkle.TreesByExpansion | internal/ledger/integrity.go:97-106 | two lists give the same tree exactly when repeating last nodes expands them to the same full list of leaves |
| Merkle.RootsEqualIffSameExpansion | internal/ledger/integrity.go:97-119 | for any two lists of leaf hashes the roots are equal exactly when the expansions are |
| Merkle.TreeBinding | internal/ledger/integrity.go:80-92 | because leaves and inner nodes are hashed with different prefixes, equal roots mean equal trees, whatever their heights |
| Merkle.RootIgnoresRepeatedLast | internal/ledger/integrity.go:344-351 | the root alone does not tell an odd list from the one with its last leaf repeated, so the entry count has to be compared |
| Chain.ChainCheck | internal/ledger/integrity.go:267-290 | the walk's counters, problems and first broken id are the row-by-row check, each chained row against the hash of the chained row before it |
| Chain.CheckChain | internal/ledger/integrity.go:294-303 | reports the first problem of the rows, linked to the given predecessor, or none |
| Chain.CheckComposes | internal/ledger/integrity.go:267-290 | checking a ++ b is checking a and then b from a's last chained hash, so checking increment by increment is the global check |
| Chain.ChainedCounts | internal/branch/branch.go:325-333 | walk and query count the same chained rows exactly when no stored hash is empty |
| Chain.BrokenIdsAgree | internal/branch/branch.go:325-333 | walk and query call the same ids broken, except that only the query objects to a NULL link at the start of the chain |
| Chain.FirstBrokenIsMin | internal/branch/branch.go:330-333 | with ascending positive ids the walk's first broken id is the least broken id |
| Chain.VerdictsAgree | internal/branch/branch.go:325-333 | counts, number of broken rows and first broken id agree exactly when the chain does not start with a NULL link |
| Chain.NullLinkDivides | internal/branch/branch.go:328-332 | a table of one unedited row with a NULL link: no problem for the walk, one broken row for the query |
| Chain.EmptyHashDivides | internal/ledger/integrity.go:270-274 | a table of one row with an empty stored hash: legacy for the walk, chained for the query |
| Sorting.SortedCopyUnique | internal/ledger/integrity.go:310-321 | sorting by distinct keys has one result, whatever the input order |
| Integrity.RootOfRows | internal/ledger/integrity.go:123-129 | the root over rows is the Merkle root over their leaf hashes, in order |
| Integrity.BuildAnchor | internal/ledger/integrity.go:150-172 | an anchor is built exactly for a non-empty list of rows with ascending ids from the given one; it covers at least one entry, up to the last id |
| Integrity.Report.Problem | internal/ledger/integrity.go:250-256 | the problem list is all problems so far, cut at 25 with one marker |
| Integrity.Search | internal/ledger/integrity.go:340-341 | the binary search finds the least index from which a monotone condition holds |
| Integrity.FindRange | internal/ledger/integrity.go:340-342 | the two binary searches over sorted rows give exactly the rows with an id in the anchor's range, in order; they cross, and slicing fails, exactly when a row lies strictly between reversed ends |
| Integrity.CheckAnchor | internal/ledger/integrity.go:323-355 | one anchor adds its problems, its note and the number of rows in its range to the report, unless verification fails on it: reversed ends with a row between them, or no entries and no last row |
| Integrity.Verify | internal/ledger/integrity.go:308-369 | the report is the findings over the rows sorted by id and the anchors sorted by last id; verification itself fails exactly when an anchor makes it, whatever the order |
| Integrity.NeverPanicsIff | internal/ledger/integrity.go:340-352 | an anchor is safe to verify against every ledger exactly when its format is unknown, or it has no room between reversed ends and does not stand for no rows; every built anchor is |
| Tampering.IntactMeansAllChecksPass | internal/ledger/integrity.go:314-367 | intact holds exactly when the chain has no problem and every anchor holds, although listed problems are capped |
| Tampering.IntactAccountsForEveryRow | internal/ledger/integrity.go:343-366 | in an intact report anchored plus unanchored rows, and chained plus legacy rows, make up all rows |
| Tampering.OrderDoesNotMatter | internal/ledger/integrity.go:310-321 | the report does not depend on the order in which rows and anchors with distinct ids are given |
| Tampering.RootBindsRows | internal/ledger/integrity.go:123-129 | for a known number of rows the root is the same exactly when every row's hashed text and capture hash are |
| Tampering.IntactIffHistoryIsTheAnchoredHistory | internal/ledger/integrity.go:305-369 | for anchors built one after the other over an honest ledger, any presented rows are intact exactly when their chain is consistent and every anchored range holds the anchored records in order |
| Tampering.AcceptedLedgerHoldsAnchoredHistory | internal/ledger/integrity.go:305-308 | the same for rows and anchor files read in any order: an accepted ledger holds the anchored history |
| Tampering.SameRecordsSameContents | internal/ledger/integrity.go:56-66 | the same records mean the same field values when '\|' occurs in statements only |
| Checkpoints.SplitRows | internal/branch/checkpoint.go:153-162 | the loop separates the last chained row before the checkpoint from the rows added since |
| Checkpoints.BranchLedger.Load | internal/branch/checkpoint.go:145-162 | exactly the rows after the last checkpoint are loaded as new, with the hash their first chained row must link to |
| Checkpoints.BranchLedger.Checkpoint | internal/branch/checkpoint.go:129-198 | a checkpoint changes the table and the anchor files as specified, and nothing on any refusal before the insert |
| Checkpoints.OnlyNeighboursFollow | internal/ledger/integrity.go:329-336 | of two checkpoints of one table only direct neighbours fit together |
| Checkpoints.IntactIffNoInteriorFileMissing | internal/ledger/integrity.go:329-339 | whichever anchor files are present, an untouched ledger is intact exactly when they are a gapless stretch of the checkpoints |
| LedgerRuns.CheckpointOfSound | internal/branch/checkpoint.go:141-191 | on a sound ledger a checkpoint succeeds with an anchor that continues the last one, or there is nothing new, or an I/O step failed |
| LedgerRuns.RunKeepsSound | internal/branch/checkpoint.go:129-198 | every append, checkpoint and clone keeps: ordered rows with a consistent chain, a table of successively built anchors, files selected from it |
| LedgerRuns.RecordedHistoryVerifies | internal/branch/checkpoint.go:200-230 | at every moment of every run every branch verifies intact exactly when no anchor file between two others is missing |
| LedgerRuns.WrittenHistoryIsIntact | internal/branch/checkpoint.go:189-197 | if every anchor file could be written, every branch verifies intact at every moment, clones without files included |
| HA.StartKeepsInv | internal/branch/ha.go:68-81 | the guards let an action begin only where its first command is safe |
| HA.CommandKeepsInv | internal/branch/ha.go:130-368 | every command of every action, however it turns out, keeps the protocol's invariant |
| HA.RunKeepsInv | internal/branch/ha.go:130-368 | the invariant holds in every state of every run from a fresh install |
| HA.NoSplitBrain | internal/branch/ha.go:191-213 | in every run two servers are writable only between failover's promotion and its stop of the old primary, and between actions only the one recorded as primary is |
| HA.SuspendStopsNothing | internal/branch/branch.go:897-917 | suspending either server is refused or finds nothing to stop |
| HA.ServedOnlyGrows | internal/branch/ha.go:259-368 | over every run the served history only grows, except where failover moves the pointer or failback does after an unclean stop |
| HA.AcceptedWriteStays | internal/branch/ha.go:259-263 | a write the primary accepted keeps its place in the served history |
| HA.FailoverKeepsReplicatedWrites | internal/branch/ha.go:193-212 | in every run a failover whose promotion succeeded ends with the standby serving, and drops at most what the standby had not received when it was promoted |
| HA.FailbackLosesNoWrite | internal/branch/ha.go:325-350 | when, in any run, a failback promotes main after an orderly stop, main's log is everything the standby ever accepted, and contains what was served at every moment since the failback began |
| HA.FailbackKeepsEveryWriteIff | internal/branch/ha.go:259-350 | that main, whenever a failback promotes it, holds everything served since the failback began, is so of all runs in which the standby was shut down in order, and not of the others |
| HA.ReplayCheckSufficesIff | internal/branch/ha.go:331-344 | passing the replay check implies that main has everything exactly when the position read is the end of the standby's log |
| HA.UncleanStopLosesAWrite | internal/branch/ha.go:325-354 | a run from a fresh install in which every command of a failback succeeds and a write is lost |
| HA.FailbackStep | internal/branch/ha.go:264-368 | each step of a failback keeps the standby's history served until the pointer moves |
| HA.FailedFailbackIsHarmless | internal/branch/ha.go:259-290 | a failback that gives up before the pointer moves leaves the standby serving with its log intact and main not running |
| HA.EnvironmentKeepsPlan | internal/branch/ha.go:37-46 | writes, replication and crashes between two commands only make logs grow and servers stop |
| HAOperator.Operator.Do | internal/branch/ha.go:130-368 | a command run by the engine is the next command of the protocol, with its effect on servers and pointer |
| HAOperator.Operator.HAEnable | internal/branch/ha.go:130-166 | refused while the standby serves; on success the standby is a replica; nothing served is lost |
| HAOperator.Operator.EmptyStandby | internal/branch/ha.go:136-150 | steps 1 and 2 leave the standby without container and ready to be filled, or end the action |
| HAOperator.Operator.FillStandby | internal/branch/ha.go:152-166 | steps 3 and 4 end with a replica of main, or fail |
| HAOperator.Operator.HAFailover | internal/branch/ha.go:191-212 | on success the standby serves and everything it had received is still served; otherwise the pointer stays and nothing is lost |
| HAOperator.Operator.HADisable | internal/branch/ha.go:215-221 | succeeds exactly when main serves, and then there is no standby |
| HAOperator.Operator.HAFailback | internal/branch/ha.go:264-368 | refused unless the standby serves; on success main serves alone; if the standby still serves afterwards main is not running; nothing served is lost unless the standby was stopped uncleanly |
| HAOperator.Operator.CopyIntoMain | internal/branch/ha.go:288-308 | step 1 ends with main copied or with the attempt undone and the standby serving |
| HAOperator.Operator.FollowStandby | internal/branch/ha.go:310-323 | step 2 ends with main a replica that has caught up, or undone with the standby serving |
| HAOperator.Operator.DrainStandby | internal/branch/ha.go:325-344 | step 3 ends with main having replayed up to the position read, or undone with the standby serving |
| HAOperator.Operator.HandOver | internal/branch/ha.go:325-350 | steps 3 and 4 end with main promoted and the standby stopped, or undone with the standby serving |
| HAOperator.Operator.Finish | internal/branch/ha.go:351-368 | main is recorded as primary; on success the old standby's container is gone |
| HAOperator.Operator.Stopped | internal/branch/ha.go:274-278 | the undo before the standby is stopped leaves it serving and main not running |
| HAOperator.Operator.Restart | internal/branch/ha.go:279-286 | the undo after the standby was stopped leaves it recorded as primary with its log intact, and main not running |
| HAOperator.Operator.Init | internal/branch/branch.go:177-226 | `up` brings up only the server recorded as primary; after a failover main stays down |
| HAOperator.Operator.StartMain | internal/branch/branch.go:198-208 | main's container is made again on its data, or the action ends; nothing served is lost |
| HAOperator.Operator.EnsurePromotedStandby | internal/branch/ha.go:228-256 | the promoted standby is brought up in whatever state its container is, and main is not |
| HAOperator.Operator.BringUpStandby | internal/branch/ha.go:230-245 | a stopped container is started, a missing one made, a running one left alone |
| HAOperator.Operator.Down | internal/branch/branch.go:542-550 | both containers are removed and nothing served is lost |
| HAOperator.Operator.Suspend | internal/branch/branch.go:897-917 | suspending either server never stops one |
| HAOperator.Operator.PerformAll | internal/branch/ha.go:130-368 | over every sequence of actions: two writable servers only inside a failover, and none but the primary between actions |
| Lexer.Tokenize | internal/ledger/impact.go:50-105 | the loops compute the tokens of the first statement, at most `max` |
| Lexer.LexNormalForm | internal/ledger/impact.go:50-105 | lexing the tokens written with single spaces gives the same tokens, for unterminated quotes and at the cap, too |
| Lexer.LexCoversStatement | internal/ledger/impact.go:48-105 | the raw tokens are consecutive disjoint pieces of the input with only white space and comments before each, and nothing else follows before the semicolon or the end |
| Lexer.FirstAgain | internal/ledger/impact.go:70-103 | a token is found again at the start of any text it is kept apart from |
| Lexer.PgIdentRoundTrip | internal/branch/import.go:1051-1053 | the lexer reads a printed identifier as one quoted token whose value is the name, for every name |
| Targets.ParseTarget | internal/ledger/impact.go:110-262 | the parser's scans and loops compute the target defined on the token list |
| Targets.TargetOfNormalForm | internal/ledger/impact.go:110-111 | a statement and its normal form have the same target: layout, comments and later statements do not matter |
| Targets.TargetIsWritten | internal/ledger/impact.go:124-135 | a target's object is a name of one to three identifiers written in the statement, a column is one of its identifiers, and only ALTER gives a column |
| Targets.LexStatement | internal/ledger/impact.go:50-105 | a statement printed from keywords and quoted dotted names is read as those tokens |
| Targets.DropTableRoundTrip | internal/ledger/impact.go:158-167 | DROP TABLE with one to three dotted printed identifiers, keywords in any case, has exactly the printed name as target |
| Targets.AlterTableRoundTrip | internal/ledger/impact.go:175-228 | ALTER TABLE with a printed name and a printed column (drop, rename, change of type) or new name gives that name, the column's own name and the right action |
| Targets.TruncateRoundTrip | internal/ledger/impact.go:168-172 | TRUNCATE TABLE of a printed name has that name as target |
| Targets.CreateIndexRoundTrip | internal/ledger/impact.go:228-243 | CREATE INDEX of any name on a printed table has the table as target |
| Targets.GrantRoundTrip | internal/ledger/impact.go:245-260 | GRANT or REVOKE of a privilege on a printed table has the table as target and the command, in lower case, as action |
| Diff.BuildDiff | internal/branch/diff.go:58-92 | the result forks where the histories stop being identical, lists each side's later entries, and the objects changed on both sides once each, sorted, with all ids |
| Diff.ForkIsLongest | internal/branch/diff.go:60-63 | the fork is the longest shared beginning with equal ids and hashes |
| Diff.DiffRebuilds | internal/branch/diff.go:79-84 | the shared entries followed by one side's entries rebuild that side's history |
| Diff.DiffIsUnique | internal/branch/diff.go:85-91 | although overlaps are collected in map order, there is one result |
| Diff.DiffSwaps | internal/branch/diff.go:58-92 | comparing the other way round swaps the result, exactly when the fork's two times read alike |
| Diff.SharedTimesReadAlike | internal/branch/diff.go:65-68 | they do when equal hashes of the shared entry stand for equal hashed text and its link contains no '\|' |
| Diff.DiffOfPlainLinksSwaps | internal/branch/diff.go:58-92 | for histories whose links contain no '\|' and whose hashed texts do not collide, comparing the other way round just swaps the sides |
| Diff.ForkOfContinuations | internal/branch/diff.go:18-21 | two continuations of one history fork exactly where the continuations do |
| Diff.CloneSharesHistory | internal/branch/diff.go:18-21 | over every run, a clone's comparison with its parent counts at least the whole inherited history as shared |
| Collector.LinesAreTheSplit | internal/branch/import.go:729-738 | the lines are the one list of newline-free texts that joins to the stream |
| Collector.ErrorCollector.Line | internal/branch/import.go:749-757 | a line is counted exactly when it is an error, and kept if fewer than 20 were |
| Collector.ErrorCollector.Write | internal/branch/import.go:727-739 | after each chunk exactly the finished lines of everything written have been taken |
| Collector.ErrorCollector.Flush | internal/branch/import.go:742-747 | afterwards count and first errors are those of splitting the whole stream |
| Collector.ErrorCollector.Failure | internal/branch/import.go:761-774 | the command's own error without failed statements, else the message listing them |
| Collector.Collect | internal/branch/import.go:776-787 | for every way of cutting the stream into writes the result is that of one pass over it; there is no failure exactly when no line is an error and the command succeeded |
| Collector.ConcatSplit | internal/branch/import.go:727-739 | cutting one chunk in two leaves the stream the same |
| Forest.OriginSnapshotIff | internal/branch/storage.go:216-221 | the check accepts exactly the snapshots made of some branch to clone this one |
| Forest.PrintedOrigin | internal/branch/storage.go:216-221 | a snapshot passes the check of the branch it was made for and of no other |
| Forest.OnlyOneDependent | internal/branch/storage.go:184-198 | no snapshot has a dependent other than the branch it was made for |
| Forest.LeftoverIsFree | internal/branch/storage.go:186-189 | a leftover snapshot for a branch that does not exist has no dependents, so it can always be removed |
| Forest.Storage.Clone | internal/branch/storage.go:184-198 | whatever fails, at most the clone is added, and then it holds what the source holds now; with no failing command it succeeds whatever snapshots are left over |
| Forest.Storage.Destroy | internal/branch/storage.go:200-214 | on success exactly the branch and what was cloned from it are gone, with its origin snapshot; no snapshot another branch needs is removed |
| Forest.Storage.Create | internal/branch/branch.go:407-437 | adds exactly the named branch with the parent's content, or none; with no failing command it succeeds exactly when the parent exists and the name is free |
| Forest.Storage.Delete | internal/branch/branch.go:441-447 | main is refused and stays; on success exactly the branch and its descendants go |
| Forest.Storage.Reset | internal/branch/branch.go:453-464 | with no failing command it works exactly when branch and parent exist and the parent is neither the branch nor cloned from it; otherwise the branch is gone |
| Forest.ResetCanLoseTheBranch | internal/branch/branch.go:453-464 | a pool in which resetting a branch to itself, or to a clone of it, cannot work although these exist |
| Forest.Storage.PerformAll | internal/branch/storage.go:184-214 | over every run of create, delete, reset and failing commands every clone keeps an origin snapshot of the form parent@for-clone with no other dependent, and leftovers never have any |
| Wire.ParseParams | internal/proxy/proxy.go:401-418 | the loops compute the map of NUL-terminated keys and values up to an empty key |
| Wire.BuildStartup | internal/proxy/proxy.go:420-435 | writes the parameters once each, in the order the map gives them, with length and protocol number |
| Wire.StartupRoundTrip | internal/proxy/proxy.go:401-435 | for every order the parameters read back are the map exactly when no key is empty and no key or value contains a NUL |
| Wire.ReadStartup | internal/proxy/proxy.go:328-377 | without a certificate: declines encryption, as long as the client takes the reply, until a startup, cancel or unknown packet, and takes exactly that packet from the stream |
| Wire.StartupIsRead | internal/proxy/proxy.go:328-435 | a written startup message is read with its parameters and nothing after it is taken, exactly when no key is empty, nothing contains a NUL and it has at most 2^20 bytes |
| Wire.ReadMsg | internal/proxy/auth.go:33-47 | takes one message from the stream, or fails on a length outside 4 to 2^24 or a short stream |
| Wire.WriteMsg | internal/proxy/auth.go:49-56 | sends the frame of the message, as much as the peer takes |
| Wire.FrameRoundTrip | internal/proxy/auth.go:33-56 | a written message is read back exactly when its length is at most 2^24 |
| Wire.ReadIsFrame | internal/proxy/auth.go:33-47 | what is read is what was on the wire |
| Wire.FramesRoundTrip | internal/proxy/auth.go:33-56 | reading a concatenation of written messages gives the same list exactly when none is too long |
| Gateway.CancelKeyInjective | internal/proxy/proxy.go:95-97 | different process and secret numbers never print the same key |
| Gateway.Proxy.RelayStartupCaptureKey | internal/proxy/proxy.go:141-163 | forwards messages up to the first ReadyForQuery or ErrorResponse or a failing read or write, returns the last well-formed key among them and registers every one |
| Gateway.RelayForwardsThroughFirstEnd | internal/proxy/proxy.go:141-163 | of a stream of messages exactly those up to and with the first ReadyForQuery or ErrorResponse are forwarded; the rest is left for the session |
| Gateway.Proxy.ForwardCancel | internal/proxy/proxy.go:113-135 | a cancel request goes to the backend registered for its key, and nowhere for an unknown key |
| Gateway.CancelReachesBackend | internal/proxy/proxy.go:84-135 | a cancel request with the numbers a client was given reaches its backend with those numbers |
| Gateway.Proxy.Handle | internal/proxy/proxy.go:307-316 | a session takes back all keys it registered exactly when there were none, or the startup phase succeeded and there was one |
| Gateway.SessionLeavesNoKeyIff | internal/proxy/proxy.go:314-316 | ending a session removes all its keys exactly when the backend sent no second, different one |
| Gateway.FailedStartupLeavesAKey | internal/proxy/proxy.go:310-316 | a key followed by an error stays registered |
| Gateway.SecondKeyLeavesTheFirst | internal/proxy/proxy.go:310-316 | of two different keys the first stays registered |
| Versions.ParseVersion | internal/update/version.go:23-50 | the loop fills in the numbers of the version the text stands for, or fails |
| Versions.ParsedIsReadable | internal/update/version.go:23-50 | a parsed version has numbers that fit and a suffix without white space at its end |
| Versions.PrintRoundTrip | internal/update/version.go:80-86 | a printed version is read back as itself exactly when some text stands for it, hence for every parsed one |
| Versions.CompareIsTotalOrder | internal/update/version.go:53-73 | comparison is a total order, and 0 only for equal versions |
| Releases.MissingAssets | internal/update/select.go:64-72 | lists exactly the needed files the release lacks |
| Releases.Candidates | internal/update/select.go:101-125 | exactly the published, newer, complete releases, newest first and otherwise in the order listed |
| Releases.Resolve | internal/update/select.go:238-281 | without a pin: the newest installable release, the first listed on ties; nothing exactly when there is none |
| Releases.ResolvePinned | internal/update/select.go:81-98 | with a pin: the first published release of that version, exactly when it is newer, complete and its checksums list every file |
| Releases.BestIsUnique | internal/update/select.go:119-119 | there is at most one release to install |
| Releases.ResolveSettles | internal/update/select.go:235-281 | once the offered release is installed the same list offers nothing more |
| Positions.LsnRoundTrip | internal/branch/ha.go:389-401 | reading inverts printing exactly for the 64-bit positions |
| Positions.LsnAtLeastIsNumeric | internal/branch/ha.go:403-409 | on positions the comparison is numeric; with an unreadable one it is false |
| Positions.ByteOrderIsNumeric | internal/branch/branch_before.go:226-234 | between numbers of one length in upper-case hexadecimal, string order is numeric order |
| Positions.WalArchivedIsNumeric | internal/branch/branch_before.go:229-234 | on 24-digit segment names, whatever follows them, the comparison is numeric |
| Positions.SegmentArchivedIff | internal/branch/branch_before.go:226-234 | a segment counts as archived exactly when the last archived one is not earlier by timeline, then number |

## Left out

- Anchor files as JSON, their file names, permissions and creation times; a file is its anchor.
- Ids near the end of Go's `int64`: `ToID + 1` does not wrap in the model.
- Re-using a branch name whose old anchor files are still on disk: clones start without files.
- The insert trigger's SQL: an append is a row with a larger id, linked to the newest row and hashed like it.
- HA actions run by two operators at once, or an engine killed inside an action: actions run one after the other.
- Failures the HA code ignores or cannot recover from: writing the pointer, `docker stop` in failover and
  `docker rm -f` take effect, and a failed promotion in failover did not promote. A standby serves what it received.
- Waking, resuming or deleting a branch that is itself named `standby`.
- Up to 60 s of waiting, polling intervals and timeouts: a wait succeeds or fails.
- The btrfs driver, pool creation, quotas other than their failing, nested dataset names, snapshots made by hand.
- Containers of branches other than the two servers: creating a branch ends with a step that may fail.
- Wire.ReadStartup: the TLS upgrade of a gateway with a certificate, because the rest of the stream is then encrypted.
- Authentication towards client and backend.
- HTTP, paging and cancellation in the updater: the list of releases is given, and a checksum URL gives its parsed
  contents or nothing; dev builds and the start-time notice.
- `FormatDiff`, the reports' and errors' wording except the import error, and all command-line handling.
- The Unicode tables: white space, letters, digits, lower case and case folding are parameters with the few facts used.
