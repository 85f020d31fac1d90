# TON block scanner core, modelled in Dafny

The scanner follows the TON masterchain block by block. On start-up (`Listen`) it resolves a start position. That position is the successor of the checkpoint stored in the database, or otherwise the chain head the node reports. It then looks the start block up until the node finds it, and seeds the per-shard watermarks `lastShardsSeqNo` from that block's shards. After that it runs the poll loop `processBlocks`.

Each iteration of the poll loop looks up the master block at the scanner's position and hands it to `processMcBlock`. Consecutive failed lookups back off with a 2, 4, 8, 8, ... second delay when they start from the base delay. After a processing error holding "is not in db" they start at 4 s. `processMcBlock` works in four stages:
- It discovers the shard blocks to read. Their map is keyed by `"workchain:shard:seqno"`, and the watermarks are written along the way.
- It fetches every shard's transactions page by page (`getTxsFromShard`).
- It hands every transaction to the classifier `processTx`, which logs jetton transfer notifications that carry a text comment.
- If any transaction failed, it rolls back and skips the block. Otherwise it stages the block with `addBlock` and commits.

The model has one module per concern:
- `Base`: Go results, integer widths, `strings.Contains`, `%d`.
- `Ton`: the ledger values.
- `Notify`: `processTx`.
- `Backoff`: the poll loop as a state machine.
- `Discovery`: the dedup key, the watermarks and the discovery loop.
- `Fetch`: `getTxsFromShard`.
- `Scanner`: the `Scanner` class with `NewScanner`, `Listen`, `processBlocks` and `processMcBlock`, and the sequentialised fan-out of `processMcBlock`.

The node, the database and the helpers not shown are inputs:
- Each remote call is represented by the sequence of replies its successive calls return.
- `fillWithNotSeenShards`, `getShardID`, `addBlock`, `GetTransaction` and the listing replies are function-valued parameters.
- The commit outcome is a parameter.

Errors are their Go error text, because the scanner decides what to do by looking for the substring "is not in db" in it.

On these points the model follows the code as written:
- The watermark of a reported shard is written in the discovery loop, right after `fillWithNotSeenShards` succeeds for it. It is not written after the shard's transactions are queued.
- The `break` at internal/scanner/process.go:117 leaves only the `select`. Every transaction is still handed to `processTx` after a failure.
- Errors from `GetBlockShardsInfo`, from the shard discovery and from the listing and fetching of transactions return without moving the position. Of the errors before `addBlock`, only a `processTx` failure advances `lastBlock.SeqNo`. Once `addBlock` has run, the position is whatever `addBlock` left, also when `addBlock` itself or the following `Commit` fails.
- The `retries` counter of `processBlocks` is reset every iteration and never compared. After a processing error without "is not in db" the loop goes straight on to the next lookup, with no sleep and no cap. That lookup retries the same block only when the error left the position where it was: the `GetBlockShardsInfo`, discovery and fetch errors. After a `processTx` failure the position has moved on, so the failing block is skipped. After an `addBlock` or `Commit` error the lookup asks for wherever `addBlock` left the position.
- The retry loop for the first shard list in `Listen` never calls `GetBlockShardsInfo` again, so a first failure makes it spin forever (`StuckOnShards`). The head query and the start lookup are retried without limit, so a node that never answers them keeps `Listen` in those loops forever (`StuckOnHead`, `StuckOnLookup`).
- When `addBlock` fails, the open database transaction is neither committed nor rolled back. The committed database is unchanged.

## Model

| member | source | states |
|---|---|---|
| Base.Inc32 | internal/scanner/process.go:137 | `SeqNo++` on a uint32: one more, and 0 past 2^32 - 1 |
| Base.Contains | internal/scanner/process.go:59 | `strings.Contains`: the text occurs at some offset; the model's only test of error texts, here and at internal/scanner/process.go:203 |
| Base.FirstOk | internal/scanner/scan.go:50-55 | the index of the first successful reply of a retried call; every earlier reply is an error |
| Base.NatToDec | internal/scanner/process.go:88 | `%d` of a seqno: a non-empty string of decimal digits, one digit exactly below 10 |
| Base.IntToDec | internal/scanner/process.go:88 | `%d` of a workchain or shard: only '-' and digits, with '-' first exactly for negative numbers |
| Base.NatToDecInjective | internal/scanner/process.go:88 | distinct naturals print differently |
| Base.IntToDecInjective | internal/scanner/process.go:88 | distinct integers print differently |
| Base.SplitAtSeparator | internal/scanner/process.go:88 | two joins at a separator that neither left part contains are equal only if both parts are |
| Discovery.Key | internal/scanner/process.go:88 | the `"%d:%d:%d"` key of a shard block; `KeyInjective` states what it promises |
| Discovery.KeyInjective | internal/scanner/process.go:84-89 | two shard blocks get the same map key if and only if they have the same workchain, shard and seqno |
| Discovery.Stamp | internal/scanner/process.go:94 | the watermark writes `m[getShardID(b)] = b.SeqNo` for each block in order, also those at internal/scanner/scan.go:86; `StampUntouched`, `StampLastWins` and `StampIdempotent` state what they do |
| Discovery.StampUntouched | internal/scanner/process.go:94 | a watermark whose shard ID no written block has keeps its presence and its value |
| Discovery.StampLastWins | internal/scanner/process.go:86-95 | after the writes, a block's shard ID maps to the seqno of the last block with that ID |
| Discovery.StampIdempotent | internal/scanner/scan.go:85-87 | seeding twice from the same shard list gives the watermarks seeding once gives |
| Discovery.Discover | internal/scanner/process.go:86-95 | the discovery loop stops with an error exactly when it stops before the last reported shard |
| Discovery.DiscoverWatermarks | internal/scanner/process.go:86-95 | the loop writes exactly the watermarks of the shards before the failing one, or of all of them, in order; its error is that fill call's error |
| Notify.Classify | internal/scanner/process.go:227-263 | a transaction is ignored if and only if it is not an internal jetton notification with op 0; a logged notification carries the parsed amount, sender, destination and comment; a failure carries the prefixed snake-load error |
| Notify.ProcessTx | internal/scanner/process.go:227-263 | `processTx` fails if and only if op is 0 and the snake string does not load, with the prefixed error text |
| Notify.Notifications | internal/scanner/process.go:260 | the notifications logged for a list of transactions, in order; `NotificationsFromCommentNotifies` states which |
| Notify.NotificationsFromCommentNotifies | internal/scanner/process.go:255-260 | a notification is logged if and only if some transaction classifies as that notification |
| Backoff.Step | internal/scanner/process.go:29-72 | one iteration of the poll loop: the next delay and position, and the sleep if any; `Iteration` states it inside any run |
| Backoff.Run | internal/scanner/process.go:29-73 | the poll loop over a finite sequence of iterations from a given delay and position; the lemmas below state its properties |
| Backoff.Iteration | internal/scanner/process.go:36-72 | within any run, an iteration looks up the position the history left; a failed lookup sleeps the current delay, doubles it up to 8 s and keeps the position; a processed block moves to the position left and resets to 2 s, except that an error holding "is not in db" first sleeps exactly 2 s and leaves 4 s; any other error sleeps nothing; the rest of the run continues from that state |
| Backoff.RunAppend | internal/scanner/process.go:29-73 | running the loop over two event runs one after the other is running it over their concatenation |
| Backoff.RunStaysOnLadder | internal/scanner/process.go:22-48 | from 2, 4 or 8 s the delay stays one of them, and every sleep lies between 2 s and 8 s |
| Backoff.FailuresBackOff | internal/scanner/process.go:36-50 | consecutive failed lookups of either kind, from the j-th delay of the schedule, sleep the schedule from there on (from the base delay: 2, 4, 8, 8, ... s) and look up the same position every time |
| Backoff.ResetThenBackOff | internal/scanner/process.go:36-56 | after a block whose processing succeeded, or failed without "is not in db", a streak of failed lookups sleeps 2, 4, 8, ... s again, whatever the delay was before |
| Backoff.NotInDbThenBackOff | internal/scanner/process.go:36-70 | after a block whose processing failed with "is not in db", which sleeps 2 s once, a streak of failed lookups sleeps 4, 8, 8, ... s |
| Backoff.FailuresKeepPosition | internal/scanner/process.go:29-50 | failed lookups never move the position |
| Fetch.FatalInExists | internal/scanner/process.go:202-208 | some fetch fails fatally if and only if some listed entry's fetch returns an error without "is not in db" |
| Fetch.KeptExactly | internal/scanner/process.go:196-215 | a transaction is collected if and only if some fetch returned it; no more transactions than listed entries |
| Fetch.FetchPage | internal/scanner/process.go:194-217 | the fetches of one page extend the collected transactions and a fatal error, if any, to the listed entries so far |
| Fetch.GetTxsFromShard | internal/scanner/process.go:168-225 | one listing call per reply, each asking for 100 entries after the last entry of the page before; error if and only if a listing call or a fetch fails other than with "is not in db"; a listing error is returned as is, a fetch error with the prefix; otherwise exactly the fetched transactions |
| Scanner.AllTxsRemove | internal/scanner/process.go:98-104 | the gathered transactions do not depend on the order in which the shard map is walked |
| Scanner.FetchedOneMore | internal/scanner/process.go:98-104 | appending the transactions of one more shard that does not fail keeps the fetch loop's invariant |
| Scanner.FetchShard | internal/scanner/process.go:99-103 | one shard's fetch fails if and only if the shard fails, with an error that shard can give; otherwise it gives the shard's transactions |
| Scanner.FetchShards | internal/scanner/process.go:97-104 | the fetch loop fails if and only if some shard fails, with an error of such a shard; otherwise it gives all shards' transactions |
| Scanner.ProcessTxs | internal/scanner/process.go:106-133 | every transaction is handed to `processTx`; the tomb reports an error if and only if some call failed, and that call's error; every notification is logged |
| Scanner.StartPosition | internal/scanner/scan.go:43-60 | the stored checkpoint's workchain and shard with seqno + 1, or else the first successfully reported chain head |
| Scanner.Scanner.constructor | internal/scanner/scan.go:21-34 | a new scanner has the zero position and no watermarks |
| Scanner.Scanner.Listen | internal/scanner/scan.go:40-90 | if no checkpoint is stored and no head query succeeds, the scanner stays in the head loop with nothing changed; otherwise the start is `StartPosition`, the head query having been retried until its first success; every lookup asks for the start position, and if none succeeds the scanner stays in that loop; a failing first shard list leaves the scanner waiting forever with its watermarks unchanged; otherwise the watermarks are the old ones with every first shard written in order, and the poll loop runs from the start with the 2 s delay |
| Scanner.Scanner.ProcessBlocks | internal/scanner/process.go:21-74 | the sleeps, lookups and final delay and position are those of the `Backoff.Run` state machine from 2 s and the old position |
| Scanner.Scanner.DiscoverShards | internal/scanner/process.go:84-95 | the shard map, the error and the new watermarks are those of `Discovery.Discover` |
| Scanner.Scanner.ProcessMcBlock | internal/scanner/process.go:76-167 | a shard-list error changes nothing; the watermarks of the shards discovered before any error are written; a discovery or fetch error keeps the position and the database; a `processTx` error keeps the database and advances the seqno by exactly 1; otherwise `addBlock` sets the position, and only if it and the commit succeed does the database gain the staged rows |

## Left out

- The node client (`LookupBlock`, `GetBlockShardsInfo`, `GetBlockTransactionsV2`, `GetTransaction`, `GetMasterchainInfo`) and the connection pool: every call is an input reply, or a function from its arguments to its reply.
- `NewScanner`'s connection error and `Stop`: network set-up and tear-down; the constructor models the scanner `NewScanner` returns on success.
- The GORM database (`Last`, `Begin`, `Rollback`, `Commit`): the stored checkpoint is an input, the database is a sequence of committed rows, and a commit is the outcome given as input.
- `addBlock`, `fillWithNotSeenShards` and `getShardID` are not part of this model: they are function-valued parameters. The model assumes nothing about how `addBlock` moves the position. It also assumes that `fillWithNotSeenShards` reads the watermarks without writing them.
- `getLastBlockSeqno` and the timing and log lines after the commit (internal/scanner/process.go:150-164) only log.
- Goroutines, `errgroup`, `tomb`, `WaitGroup` and the mutex: the fetches and `processTx` calls are run one after another. The gathered transactions are stated as a multiset, and which failing task's error wins is left open. This relies on Go 1.22 closures, where each loop iteration has its own variables.
- `time.Sleep` and `time.Since`: the poll loop records the sleeps it asks for, in whole seconds. Each retry of the head query and of the first lookup in `Listen` sleeps one second; the retry counts stand for those sleeps.
- Logging, including the `ErrBlockNotFound` test, which only chooses whether a failed lookup is logged.
- Cell parsing (`LoadFromCell` against the jetton-notify layout, `LoadUInt(32)`, `LoadStringSnake`, the `JettonNotify` structure): a message body is given by what parsing yields.
- A transaction without an inbound message (a nil dereference in `processTx`) is not modelled: every modelled transaction has one.
- Scanner.Scanner.ProcessBlocks: the loop runs over a finite sequence of iterations, each given by its lookup outcome and by what `processMcBlock` returned and left as position. It does not call `ProcessMcBlock` itself, because the fetch error `processMcBlock` returns is chosen by goroutine timing and so has no function form. The watermark and database writes of each processed block are therefore not carried by the events, and the watermarks after `Listen` are those of the seeding.
- Fetch.GetTxsFromShard: requires that the node's page replies end, and that every page with more to come is non-empty. A never-ending listing loops forever. A page with more to come but no entries makes the Go code panic on `txsShort[len(txsShort)-1]`.
- Scanner.Scanner.Listen: the endless retry loops are modelled as outcomes: `StuckOnHead` when no head reply succeeds, `StuckOnLookup` when no lookup reply succeeds, and `StuckOnShards` when the first shard list fails. A finite sequence of replies without a success stands for a node that never answers.
- The `ctx` argument: it is passed to the node calls only and is never cancelled by the scanner.
