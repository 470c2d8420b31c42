# Bitcoin 0.7.1: a verified model

This project models the parts of the Bitcoin 0.7.1 node that carry its hardest state and arithmetic, and proves what
they are for. Every operation that the node runs step by step is a method, proved against a specification function or
predicate; the main results are lemmas about those specifications, for all inputs, all runs and all random choices.
`dafny verify dfyconfig.toml` checks everything, within Dafny's default limits.

## What is modelled

**Chain state** (`Transactions`, `ChainIndex`, `BlockChain`, `Ledger`, `Reorganization`, `Spending`, `Supply`,
`BlockIndex`, `TxDb`, `MainChain`, `ChainState`, `Counterexamples`). The transaction index maps a transaction hash to
its outputs and their spent marks. `ChainIndex` and `BlockChain` say as values what connecting and disconnecting do;
`TxDb` holds the loops of ConnectInputs, ConnectBlock and DisconnectBlock over a database with begin, commit and
abort; `MainChain` and `ChainState` hold the block trees with their `pprev` and `pnext` pointers, Reorganize,
SetBestChain and the globals. `Ledger` proves once, for anything whose blocks can be undone exactly when they are new,
that any run of connects, disconnects and reorganizations equals a replay of the main chain, as long as what a step
undoes was new when it was connected. `Reorganization` has the exact condition for the transaction index: what is lost
in undoing a repeated hash must be created again by the new branch. `ChainState.CChainState.Valid()` is about the
trees, the links and the globals only and allows every block, also one whose parent is unknown; that the index is the
replay of the main chain is a property beside it, `IndexIsReplay()`. `Spending` and `Supply` add that no output is
spent twice between two creations of its transaction, on every accepted chain, and that no money is created beyond the
subsidies. Hashes, serialized sizes, script evaluation and header checks are fields of `Rules`, so that every result
holds for all of them.

**Script** (`Bytes`, `BigNum`, `Script`, `FindDelete`, `Multisig`, `Machine`, `Interpreter`, `SigOps`, `Standard`,
`Destinations`, `Combine`). `Machine` says what each instruction does, as the stack pictures in the comments of
EvalScript do; `Interpreter` holds the loop, the switch and the CHECKMULTISIG counters, proved against it. A ghost
counter counts the calls of CheckSig, which is an uninterpreted predicate, also in scripts that fail. The rest reads,
writes, deletes from, counts, recognizes and combines scripts. Pay-to-script-hash follows the Specification section of
BIP 16.

**Address manager** (`AddrBook`, `AddrOps`, `AddrMan`, `AddrCheck`, `AddrStore`, `AddrLoad`). `AddrBook` states the
invariant of the five linked indexes, `AddrOps` the effect of each operation on the whole book and that it keeps the
invariant, and `AddrMan` the class whose methods have those effects for every random choice. `AddrCheck` holds Check_,
`AddrStore` and `AddrLoad` the two halves of the file format. Bucket hashes are uninterpreted functions of the key and
of the immutable address, port and source.

**Messages** (`DataStream`, `Messages`, `Delivery`): the writer that patches size and checksum into its send buffer,
the reader that scans for the magic and rewinds its receive buffer, and what arrives when the bytes come in pieces.

**Numbers and texts** (`Compact`, `Retarget`, `Words`, `Hex`, `Text`, `BaseUint`, `Base58`): compact targets over a
modelled MPI format, the retarget, fixed-width integers word by word, hexadecimal and base 58 texts.

**Blocks** (`Merkle`, `Locator`, `Miner`): the flat-array Merkle tree, the block locator, and the choice and order of
the transactions of a new block.

Times, random numbers, the checkpoint height, and the outcome of calls into the rest of the node are parameters.
Amounts, sizes and heights are unbounded integers; where the width matters it is written out (`Trunc32`, the four bytes
of a compact target, the words of `base_uint`), and `Supply.FeesFit` shows that the running fees stay in 64 bits.

## Where the code does not do what one would expect

- A block that connects can be undone exactly only if none of its transactions was in the index before. The rule of the
  Specification section of BIP 30 allows fully spent duplicates, so `BlockChain.DisconnectBlockRestores`,
  `Ledger.UndoRetracesIff` and `BlockChain.DropIsReplayIff` are if-and-only-ifs.
  `Counterexamples.RepeatedIsNotRestored` has a block that is not restored. The entries that a reorganization loses in
  this way come back if and only if the new branch creates them again where BIP 30 lets it
  (`Reorganization.ReorganizeIff`); `Reorganization.RunIff` says so of whole runs.
- After SetBestChain stops at a postponed block that does not connect (a3/a2/main.cpp:1697-1698) it still makes the new
  block the tip. `ChainState.CChainState.SetBestChain` returns the block `reached` that links and index stand at; the
  state is valid if and only if that is the new tip, and that if and only if every postponed block connects.
  `Counterexamples.PostponedBlockFails` is a run in which it is not.
- FindAndDelete can leave the pattern it deletes. `FindDelete.CleanForAllScriptsIff` characterizes the patterns that
  never survive; `FindDelete.SurvivorSurvives` builds a script for each of the others. The patterns that EvalScript
  deletes are of the good kind (`FindDelete.PushOverlaps`).
- GetCompact loses the length of numbers of more than 2039 bits, whose MPI form has more than 255 bytes.
  `Compact.CompactIsClose` and `Compact.CompactIsMonotone` give the exact limits; 2^2039 comes back as 0
  (`Compact.FirstWrapped`). A second pass changes nothing, whatever the length (`Compact.CompactIsFixed`).
- The Merkle root does not determine the number of transactions: repeating the last one of an odd number changes nothing
  (`Merkle.RepeatedLastSameRoot`), and a list and the level above it share a root (`Merkle.LevelAboveSameRoot`). With a
  hash without collisions, `Merkle.SameRootIff` says exactly which lists share a root, of whatever lengths. The longer
  of two such lists with equally many levels has two equal neighbours somewhere (`Merkle.LongerHasTwins`), which a
  caller can look for. For equal lengths the root determines all transactions.
- SelectTried returns a position, but after its exchange the oldest entry stands where the loop counter was
  (a3/a2/addrman.cpp:135-142), so that MakeTried may evict another one. `AddrOps.OldestSelectedIff`: it is sure to select
  an entry that is no newer than any it inspects only when all entries of the bucket are equally old, or when there are
  two in order. `AddrOps.NewerIsSelected` has two entries of which the newer one goes.
- Good_ with a time that is not positive leaves a "tried" entry that Check_ fails on (`AddrCheck.GoodPassesIff`).
  `AddrMan.CAddrMan.Good_` takes any time and keeps the five indexes linked; the invariant holds afterwards if and only
  if the time is positive, and when the indexes are linked Check_ passes if and only if the invariant holds
  (`AddrCheck.LinkedPassesIff`).
- CreateNewBlock leaves out a transaction with a missing input. If an input in the pool stands before the missing one,
  it also drops the record that mapDependers already names (a3/a2/main.cpp:3526-3568). `Miner.Collect` tells which
  records these are, for every pool; `Miner.NoneDroppedIff` says when there are none, and
  `Counterexamples.RecordIsDropped` has a pool with one.

## Model

| member | source | states |
|---|---|---|
| Transactions.CheckTransaction | a3/a2/main.cpp:432-478 | accepts exactly the transactions with inputs and outputs, a legal size, every output and every running total in range, no repeated input, and a coinbase script of 2 to 100 bytes or no null input |
| Transactions.TxIdsCount | a3/a2/main.cpp:1831-1839 | the set of the hashes of a block is as large as the block if and only if the hashes are pairwise different |
| Transactions.UniqueTxIds | a3/a2/main.cpp:1831-1839 | comparing the two sizes tells whether the hashes are pairwise different |
| Transactions.CheckBlock | a3/a2/main.cpp:1802-1854 | accepts exactly the blocks with a coinbase first and nowhere else, only good transactions, no repeated hash, and at most MAX_BLOCK_SIGOPS legacy signature operations |
| ChainIndex.UnmarkMark | a3/a2/main.cpp:1088-1110 | clearing the marks that a transaction sets gives back the index if they were clear before |
| ChainIndex.UndoTx | a3/a2/main.cpp:1086-1119 | DisconnectInputs undoes the connection of a transaction with free inputs and a new hash |
| ChainIndex.UndoTxs | a3/a2/main.cpp:1381-1386 | undoing connected transactions last to first restores the index, also when they spend each other |
| ChainIndex.DisconnectTxsKeys | a3/a2/main.cpp:1381-1386 | disconnecting takes exactly the hashes of the block out of the index and brings none in |
| ChainIndex.UndoExactlyWhenNew | a3/a2/main.cpp:1381-1386 | the undo is exact if and only if every hash was new to the index |
| BlockChain.ConnectOkIsFree | a3/a2/main.cpp:1438-1483 | a block that connects spends only outputs that exist and are unspent at that point, in-block ones included, and repeats no hash |
| BlockChain.ConnectOkWithoutSignatures | a3/a2/main.cpp:1288-1306 | whatever connects with signature checks connects without them |
| BlockChain.DisconnectBlockRestores | a3/a2/main.cpp:1381-1513 | for every block that connects: disconnecting gives back exactly the index before it if and only if its hashes were new |
| Ledger.UndoRetracesIff | a3/a2/main.cpp:1547-1561 | undoing the last blocks of a chain one by one goes back through the replays of its beginnings if and only if each undone block was new when it was connected |
| Ledger.DetachReplayedIff | a3/a2/main.cpp:1381-1399 | dropping the tip leaves the replay of the rest if and only if the tip block was new, or the undo failed and changed nothing |
| Ledger.ReorganizeReplayed | a3/a2/main.cpp:1515-1609 | if the blocks above the fork were new, disconnecting down to it succeeds and stands at the replay of the common part, and if the new branch connects, the state is the replay of the new chain; the blocks that stay need not be new |
| Ledger.RunReplays | a3/a2/main.cpp:1613-1713 | for any ledger: after any run of connects, disconnects and all-or-nothing reorganizations the state is the replay of the main chain, if every block that a step undoes was new when it was connected (for the transaction index, Reorganization.RunIff has the exact condition) |
| BlockChain.RunIsReplay | a3/a2/main.cpp:1613-1713 | the same for the transaction index, for all rules; blocks that stay connected may repeat fully spent hashes, and the two blocks exempt from BIP 30 unspent ones |
| BlockChain.DropIsReplayIff | a3/a2/main.cpp:1381-1399 | for the index, dropping the tip keeps the replay if and only if the hashes of the tip block were new, or the undo failed |
| Reorganization.UndoWithout | a3/a2/main.cpp:1547-1561 | undoing the blocks down to m, if it succeeds, leaves the replay up to m without the hashes of what was undone, repeated ones included |
| Reorganization.ConnectWithout | a3/a2/main.cpp:1401-1513 | a block that connects while entries are missing connects with them there exactly if it may write what it writes of them, and the two indexes differ by the entries still missing |
| Reorganization.RecoversIff | a3/a2/main.cpp:1563-1580 | a branch that connects while entries are lost connects with them there, to the same index, if and only if it creates every lost entry again where BIP 30 lets it |
| Reorganization.ReorganizeIff | a3/a2/main.cpp:1515-1609 | a reorganization that succeeds leaves the replay of the new chain if and only if the new branch creates again every entry that undoing repeated hashes lost |
| Reorganization.StepIff | a3/a2/main.cpp:1613-1713 | any step keeps the index the replay of the main chain if and only if what it loses comes back |
| Reorganization.RunIff | a3/a2/main.cpp:1613-1713 | in any run the index is at every moment the replay of the main chain if and only if every step brings back what it loses |
| Counterexamples.RepeatedIsNotRestored | a3/a2/main.cpp:1381-1449 | a coinbase repeated after its outputs were spent connects, and undoing it takes the old entry away instead of bringing it back |
| Spending.SpendHistory | a3/a2/main.cpp:1276-1314 | over any list of connected transactions, repeated hashes included: since the transaction of an output was last created at most one spends it, and its mark names exactly that one |
| Spending.SecondSpender | a3/a2/main.cpp:1276-1314 | of two spenders of an output, the second comes after its transaction was created again |
| Spending.OneSpenderIfDistinct | a3/a2/main.cpp:1276-1314 | when no hash repeats, an output has one spender at most, over any list of connected transactions |
| Spending.EachOutputSpentOnce | a3/a2/main.cpp:1276-1314 | on every accepted chain, repeated hashes included: between two spenders of an output its transaction is created again; since the last creation there is at most one spender, and the mark is its position, or none |
| Spending.EachOutputSpentOnceIfDistinct | a3/a2/main.cpp:1276-1314 | and so on every accepted chain without repeated hashes |
| Supply.TotalConnectTx | a3/a2/main.cpp:1239-1329 | connecting a transaction changes the unspent total by at most outputs less inputs, and by exactly that if its hash is new |
| Supply.BlockAddsAtMostSubsidy | a3/a2/main.cpp:1438-1486 | a block that connects adds at most its subsidy to the unspent total, overwritten duplicates included |
| Supply.FeesNonNegative | a3/a2/main.cpp:1474-1482 | accepted transactions never pay negative fees |
| Supply.FeesFit | a3/a2/main.cpp:1474-1486 | the running fees of ConnectBlock are not negative and stay far from the limits of 64 bits |
| Supply.SubsidySumBound | a3/a2/main.cpp:909-917 | at every height, what has been paid out and what the current rate still pays fit under MAX_MONEY |
| Supply.SubsidySumWithinMaxMoney | a3/a2/main.cpp:909-917 | the subsidies of the heights from 1 on never add up to more than MAX_MONEY |
| Supply.MoneyIsConserved | a3/a2/main.cpp:1438-1486 | after every prefix of a connected chain the unspent total is at most the sum of the subsidies, which is at most MAX_MONEY |
| TxDb.CTxDB.constructor | a3/a2/db.h:320-323 | an empty index and no open transaction |
| TxDb.CTxDB.TxnBegin | a3/a2/db.h:270-279 | fails if a transaction is open, and otherwise remembers the contents |
| TxDb.CTxDB.TxnCommit | a3/a2/db.h:281-288 | keeps the contents and closes the transaction |
| TxDb.CTxDB.TxnAbort | a3/a2/db.h:290-297 | brings back the contents at the begin |
| TxDb.CTxDB.UpdateTxIndex | a3/a2/db.cpp:488-492 | changes the entry of one hash and nothing else |
| TxDb.CTxDB.EraseTxIndex | a3/a2/db.cpp:504-510 | removes one hash and nothing else |
| TxDb.CTxDB.WriteHashBestChain | a3/a2/db.cpp:554-557 | changes the hash of the tip and nothing else |
| TxDb.FetchInputs | a3/a2/main.cpp:1122-1195 | succeeds if and only if every input names an existing output of the index with the queued changes on top, and then fetches them all |
| TxDb.IsMature | a3/a2/main.cpp:1261-1265 | a coinbase may be spent if and only if its block is not among the last 100 of the branch |
| TxDb.CheckInputs | a3/a2/main.cpp:1250-1272 | the first loop accepts exactly the inputs that exist, are mature and in range with every running total |
| TxDb.SpendEach | a3/a2/main.cpp:1276-1314 | the second loop accepts exactly distinct, unspent and validly signed inputs, and then marks exactly these in the view |
| TxDb.ConnectInputs | a3/a2/main.cpp:1239-1329 | accepts exactly what may be spent, and then the view is the old one with the inputs marked by this transaction |
| TxDb.SumOutputs | a3/a2/main.h:514-524 | the sum of the output values |
| TxDb.SumInputs | a3/a2/main.cpp:1210-1222 | the sum of the values of the outputs spent |
| TxDb.CountP2shSigOps | a3/a2/main.cpp:1224-1237 | the signature operations of the pay-to-script-hash inputs |
| TxDb.GatherInputs | a3/a2/main.cpp:1460-1477 | what the inputs of a transaction add to signature operations and fees, if they are all found |
| TxDb.MayOverwrite | a3/a2/main.cpp:1442-1449 | the BIP 30 rule: a known hash is allowed if and only if all its outputs are spent in the database |
| TxDb.ConnectNextTx | a3/a2/main.cpp:1438-1483 | one round: accepts the transaction if and only if the specification does in the view of the transactions before it, and keeps view, counts and position in step |
| TxDb.WriteQueued | a3/a2/main.cpp:1491-1496 | the database takes over all queued changes |
| TxDb.ConnectBlock | a3/a2/main.cpp:1401-1513 | succeeds if and only if the block is good, connects in order, stays within the signature operation limit and pays its coinbase at most subsidy and fees; the index is then the connected one, and unchanged on failure |
| TxDb.DisconnectInputs | a3/a2/main.cpp:1086-1119 | clears the marks and erases the entry, failing exactly when a spent slot is missing |
| TxDb.DisconnectBlock | a3/a2/main.cpp:1381-1399 | the index is that of DisconnectInputs over the transactions last to first |
| BlockIndex.CBlockIndex.constructor | a3/a2/main.cpp:1760-1771 | height and chain work of a new entry follow from its parent |
| BlockIndex.PathWellFormed | a3/a2/main.h:998-1141 | every ancestor stands at its own height on the path, and its path is the beginning of this one |
| MainChain.LinksMeaning | a3/a2/main.cpp:1588-1596 | when the links stand at a tip, pnext is non-null exactly on its proper ancestors, and inverts pprev there |
| MainChain.OneTip | a3/a2/main.cpp:1588-1596 | the links can stand at one tip only |
| MainChain.FindFork | a3/a2/main.cpp:1519-1531 | finds the last common block of two branches, and fails if and only if they have no common root |
| MainChain.BranchDown | a3/a2/main.cpp:1533-1542 | the list of the blocks above the fork, tip first |
| MainChain.Unlink | a3/a2/main.cpp:1588-1591 | clearing one link shortens the linked path by one block |
| MainChain.Link | a3/a2/main.cpp:1593-1596 | setting one link lengthens it by one |
| MainChain.PickTarget | a3/a2/main.cpp:1658-1670 | the block chosen beats the old tip in work and its parent does not; the blocks above it are postponed, highest first |
| MainChain.Relink | a3/a2/main.cpp:1588-1596 | moves the links from the old tip to the new one and leaves every other pnext null |
| MainChain.DisconnectEach | a3/a2/main.cpp:1547-1561 | the disconnect loop is the undo of the branch down to the fork |
| MainChain.ConnectEach | a3/a2/main.cpp:1563-1580 | the connect loop is the connection of the new branch in order, failing exactly at its first bad block |
| MainChain.Reorganize | a3/a2/main.cpp:1515-1609 | succeeds if and only if there is a fork and the whole switch does; then index, tip hash and links stand at the new tip, and otherwise links and open transaction are untouched |
| MainChain.SwitchKeepsReplay | a3/a2/main.cpp:1515-1609 | if the blocks of the old branch above the fork were new, the disconnect half never fails, and a completed switch leaves the index at the replay of the new branch |
| MainChain.ExtendReplay | a3/a2/main.cpp:1613-1628 | connecting the child of the tip moves the index to the replay of the branch of the child |
| MainChain.ConnectedIsReplay | a3/a2/main.cpp:1683-1700 | connecting a part of a branch above a replay gives the replay of that part, whatever the blocks repeat |
| MainChain.SetBestChainInner | a3/a2/main.cpp:1613-1635 | one more block: succeeds if and only if it connects; on failure the database is back at the begin of its transaction and the links at the old tip |
| MainChain.ConnectPostponed | a3/a2/main.cpp:1683-1700 | the blocks up to `reached` are connected and no others: links, tip hash and index stand there, and it is the new tip if and only if every postponed block connects |
| MainChain.SwitchBranch | a3/a2/main.cpp:1656-1700 | picks the target, reorganizes to the fork of it, all or nothing, and goes on to the postponed blocks; the index is exactly that of these connections; without a common block nothing changes |
| MainChain.MovedKeepsReplay | a3/a2/main.cpp:1637-1713 | what SetBestChain does to the index takes the replay of the old branch to the replay of the branch it reaches, if what it undoes was new |
| MainChain.MovedIsReplayIff | a3/a2/main.cpp:1637-1713 | what SetBestChain does to the index takes a replay to the replay of the branch it reaches if and only if that branch creates again what undoing the old one lost |
| MainChain.OtherRootFails | a3/a2/main.cpp:1519-1531 | a block that starts a tree of its own never becomes the tip |
| MainChain.WalkToHeight | a3/a2/main.cpp:879-882 | walking down along pprev and up along pnext from any main-chain block reaches the main-chain block of the height |
| ChainState.CChainState.constructor | a3/a2/main.cpp:31-39 | the empty state is valid, and its index is the empty replay |
| ChainState.CChainState.MoveTip | a3/a2/main.cpp:1637-1700 | succeeds exactly when the genesis block comes first, the next block connects, or there is a fork and the switch to the target succeeds, with exactly the index of these steps; on failure the whole state is as before |
| ChainState.CChainState.SetBestChain | a3/a2/main.cpp:1637-1713 | the same, with the globals: on failure nothing has changed; on success the tip is the new block, the state is valid if and only if links and index have reached it, and an index that was a replay is the replay of what is reached if and only if what was lost on the way came back |
| Counterexamples.PostponedBlockFails | a3/a2/main.cpp:1683-1713 | a run of the state itself: SetBestChain succeeds with an empty block on top, but links and index stop at the block below, and the state is not valid |
| ChainState.CChainState.Insert | a3/a2/main.cpp:1763-1771 | a new entry keeps the whole state valid, whatever hashes its transactions have and whether its parent is known or not |
| ChainState.CChainState.AddToBlockIndex | a3/a2/main.cpp:1752-1797 | a known block is refused; any other is inserted, under its parent or without one if that is unknown, and the tip is left alone unless it has more work, when SetBestChain says what happens; without a parent it then fails |
| ChainState.CChainState.FindBlockByHeight | a3/a2/main.cpp:870-885 | from a valid state, the unique main-chain block of the height, whichever start is nearest; the cached pointer stays on the main chain |
| BigNum.NumOfSigned | a3/a2/bignum.h:238-263 | setvch undoes getvch, for every integer |
| BigNum.SignedIsShortest | a3/a2/bignum.h:238-263 | getvch after setvch keeps the number, and keeps the bytes exactly when they are the shortest form |
| BigNum.CBigNum.SetVch | a3/a2/bignum.h:238-251 | the number that the bytes stand for, the sign in the highest bit |
| BigNum.CBigNum.GetVch | a3/a2/bignum.h:253-263 | the shortest bytes of the number with room for the sign |
| BigNum.CBigNum.SetCompact | a3/a2/bignum.h:265-275 | the number of the MPI body that the compact form describes |
| BigNum.CBigNum.GetCompact | a3/a2/bignum.h:277-288 | the MPI length, as far as it fits, and the three highest bytes |
| Script.ParseOp | a3/a2/script.h:413-464 | an instruction is at least one byte, within the script, and starts with its opcode |
| Script.ParseLocal | a3/a2/script.h:413-464 | what is read depends only on the bytes that are consumed |
| Script.GetOp2 | a3/a2/script.h:413-464 | reads the instruction at pc and stops right behind it, or fails with OP_INVALIDOPCODE without leaving the script |
| Script.CScript.Append | a3/a2/script.h:272-276 | appends the bytes |
| Script.PushIsRead | a3/a2/script.h:350-375 | the reader reads back every pushed vector whatever follows, and stops at its end |
| Script.PushedInt | a3/a2/script.h:236-262 | every 64-bit number, signed or unsigned, pushes its own shortest bytes, be it as an opcode or as a vector |
| Script.EncodeOP_N | a3/a2/script.h:474-480 | DecodeOP_N undoes EncodeOP_N on 0 to 16 |
| Script.CScript.PushOpcode | a3/a2/script.h:316-322 | appends one opcode |
| Script.CScript.PushData | a3/a2/script.h:350-375 | appends the shortest push of the vector |
| Script.CScript.PushInt | a3/a2/script.h:236-262 | appends the push of the number |
| FindDelete.FindAndDelete | a3/a2/script.h:482-499 | terminates although its position stands still while matches are erased; counts and deletes every match at an instruction reached |
| FindDelete.DeletedLength | a3/a2/script.h:482-499 | the script shrinks by exactly count times the length of the pattern |
| FindDelete.CleanIsFixed | a3/a2/script.h:482-499 | the pattern matches at no position reached exactly when nothing would be deleted, and then the script stays as it is |
| FindDelete.CleanForAllScriptsIff | a3/a2/script.h:482-499 | one call leaves no match, and a second call deletes nothing, for every script if and only if the pattern is no whole instruction or is one followed by a beginning of the pattern |
| FindDelete.SurvivorSurvives | a3/a2/script.h:482-499 | for every other pattern, a script in which the pattern stands again after the deletion |
| FindDelete.DeletedIsClean | a3/a2/script.h:482-499 | for a pattern of the good kind the result holds no match, whatever the script |
| FindDelete.PushOverlaps | a3/a2/script.cpp:944-945 | the pushes of signatures that EvalScript deletes are of the good kind |
| Multisig.GreedyIffAssigned | a3/a2/script.cpp:1000-1019 | the greedy loop succeeds if and only if some strictly increasing assignment of signatures to keys has every pair valid |
| Multisig.GreedyCalls | a3/a2/script.cpp:1000-1019 | the loop calls CheckSig at most once for each key |
| Interpreter.CastsToBool | a3/a2/script.cpp:42-55 | false exactly for zeros and a negative zero |
| Interpreter.StripSignatures | a3/a2/script.cpp:993-998 | deletes each of the signatures from the code that they sign |
| Interpreter.MatchSignatures | a3/a2/script.cpp:1000-1019 | counting down from the top of the stack is the greedy matching, call by call |
| Interpreter.ExecMultisig | a3/a2/script.cpp:962-1033 | fails exactly on bad counts, missing operands or too many operations; otherwise answers the matching of the signatures on the stack, with so many calls |
| Interpreter.ExecChecksig | a3/a2/script.cpp:927-960 | the signature is checked against the code without itself, with one call |
| Interpreter.ExecControl | a3/a2/script.cpp:345-378 | conditionals push, flip and pop the branch flags, and fail when there is none |
| Interpreter.ExecDouble | a3/a2/script.cpp:422-491 | the two- and three-element stack instructions have the effect of their stack pictures |
| Interpreter.ExecSingle | a3/a2/script.cpp:493-548 | so have the single-element ones |
| Interpreter.ExecMove | a3/a2/script.cpp:550-666 | so have OP_PICK to OP_TUCK and OP_SIZE, for every operand |
| Interpreter.ChangeNumber | a3/a2/script.cpp:762-773 | the inner switch over one operand has the arithmetic meaning of each opcode |
| Interpreter.CombineNumbers | a3/a2/script.cpp:804-853 | the inner switch over two operands has the arithmetic meaning of each opcode |
| Interpreter.ExecNumeric | a3/a2/script.cpp:717-882 | the numeric instructions compute on numbers of at most four bytes and answer in shortest form |
| Interpreter.ExecSimple | a3/a2/script.cpp:312-925 | the instructions other than data pushes, conditionals and signature checks |
| Interpreter.ExecInstruction | a3/a2/script.cpp:304-1037 | the whole switch, with the number of CheckSig calls |
| Interpreter.ExecStep | a3/a2/script.cpp:273-307 | one round: size, operation count, disabled instructions and branches are treated as specified |
| Interpreter.EvalScript | a3/a2/script.cpp:256-1054 | for every script and stack: succeeds exactly when the specification does, with that stack, and with its number of CheckSig calls also on failure |
| SigOps.GetSigOpCount | a3/a2/script.cpp:1792-1814 | the sum of the weights of the instructions up to the first broken one |
| SigOps.RunWithinCount | a3/a2/script.cpp:256-1054 | from any state the CheckSig calls of the rest of a run are at most the count of the rest of the script |
| SigOps.CallsWithinSigOps | a3/a2/script.cpp:1792-1814 | for every script and starting stack, EvalScript calls CheckSig at most as often as GetSigOpCount says, accurate or not |
| SigOps.IsPushOnly | a3/a2/script.h:524-536 | true exactly for scripts of whole instructions that push literals |
| SigOps.GetSigOpCountP2sh | a3/a2/script.cpp:1816-1838 | the accurate count of the script handed over, or of this one if it is no pay-to-script-hash |
| SigOps.VerifyScript | a3/a2/script.cpp:1574-1608 | accepts exactly what the rules of BIP 16 accept; the calls of both scripts stay within both counts, and those of the script handed over within the scriptSig overload |
| SigOps.LastLiteralOnTop | a3/a2/script.cpp:1591-1598 | a script of literals leaves its last literal on top |
| SigOps.RedeemWithinSigOps | a3/a2/script.cpp:1816-1838 | for a pay-to-script-hash spend the third run calls CheckSig at most as often as the scriptSig overload says |
| Standard.PushAll | a3/a2/script.cpp:1670-1676 | appends the pushes of all values in order |
| Standard.RunPushAll | a3/a2/script.cpp:1670-1676 | from any running state without conditionals, the pushes put exactly their values on top |
| Standard.EvalPushAll | a3/a2/script.cpp:1670-1676 | run on an empty stack it leaves exactly the values if script, elements and count are within the limits, and fails otherwise |
| Standard.TakeKeysLoop | a3/a2/script.cpp:1285-1292 | takes the longest run of key pushes |
| Standard.MatchTemplate | a3/a2/script.cpp:1257-1327 | the comparison loop follows template and script in step |
| Standard.PubkeyMeaning | a3/a2/script.cpp:1230-1231 | the pay-to-pubkey template matches exactly the scripts [key] OP_CHECKSIG, and yields the key |
| Standard.PubkeyHashMeaning | a3/a2/script.cpp:1233-1234 | the address template matches exactly the five instructions with a 20-byte hash, and yields the hash |
| Standard.MultisigMeaning | a3/a2/script.cpp:1236-1237 | the multisig template matches exactly m [keys] n OP_CHECKMULTISIG with small numbers, and yields m, the keys and n |
| Standard.Solver | a3/a2/script.cpp:1224-1333 | type and solutions are those of the shape of the script, the first of the types that fits |
| Destinations.SetDestination | a3/a2/script.cpp:1849-1877 | writes the script of the destination |
| Destinations.ExtractDestination | a3/a2/script.cpp:1519-1543 | finds the destination that the solutions name |
| Destinations.DestinationRoundTrip | a3/a2/script.cpp:1519-1543 | ExtractDestination undoes SetDestination |
| Destinations.SetMultisig | a3/a2/script.cpp:1879-1887 | writes m, the keys and n |
| Destinations.MultisigRoundTrip | a3/a2/script.cpp:1879-1887 | Solver returns m, the keys and n, accepting exactly 1 <= m <= n; with a key of another size the script is not standard |
| Combine.MatchKey | a3/a2/script.cpp:1700-1714 | a signature is kept for a free key that it is valid for, and dropped only if there is none |
| Combine.NonEmpty | a3/a2/script.cpp:1682-1693 | the set of the signatures that are not empty |
| Combine.CombineMultisig | a3/a2/script.cpp:1678-1731 | whatever the order of the signatures: each one kept is valid for its key, none dropped fits a free key, and the script holds them in the order of the keys |
| Combine.Merge | a3/a2/script.cpp:1715-1730 | at most the required number of signatures, in key order, filled up with OP_0 |
| Combine.MultisigAccepts | a3/a2/script.cpp:962-1033 | a standard multisig script accepts signatures that an increasing assignment fits to its keys, if none occurs in it |
| Combine.CombinedIsAccepted | a3/a2/script.cpp:1678-1731 | when the required number was gathered and no signature occurs inside the script, VerifyScript accepts the combined scriptSig |
| AddrMan.CAddrMan.constructor | a3/a2/addrman.h:382-390 | the empty book meets the invariant |
| AddrBook.TriedBucket | a3/a2/addrman.cpp:9-21 | a bucket in range that depends on key, address and port only |
| AddrBook.NewBucket | a3/a2/addrman.cpp:23-35 | a bucket in range that depends on key, address and source only |
| AddrMan.CAddrMan.Find | a3/a2/addrman.cpp:80-91 | finds the entry of the address, if there is one |
| AddrMan.CAddrMan.Create | a3/a2/addrman.cpp:93-103 | one more entry, linked from all three indexes |
| AddrMan.CAddrMan.SwapRandom | a3/a2/addrman.cpp:105-123 | two places of vRandom change hands together with the positions in their entries |
| AddrMan.CAddrMan.SelectTried | a3/a2/addrman.cpp:125-147 | for every random choice: the bucket is shuffled by exactly the positions drawn, and the position returned is the one drawn when the oldest of the entries inspected was met, or -1 for an empty bucket; every tried entry stays in its own bucket |
| AddrOps.ShuffledIsPermutation | a3/a2/addrman.cpp:131-138 | the exchanges only permute the bucket |
| AddrOps.OldestSelectedIff | a3/a2/addrman.cpp:125-147 | for every bucket: whatever is drawn, the entry selected is no newer than any inspected if and only if all entries of the bucket are equally old, or there are two of them, the first no newer than the second |
| AddrOps.NewerIsSelected | a3/a2/addrman.cpp:131-146 | the failing case of two entries: with the older one second there are draws for which the newer one is selected |
| AddrMan.CAddrMan.SampleOldest | a3/a2/addrman.cpp:174-188 | the entry chosen is at one of the four sampled positions, and none there was seen longer ago |
| AddrMan.CAddrMan.ShrinkNew | a3/a2/addrman.cpp:149-201 | drops one member of the bucket: the first terrible one, or if there is none the oldest of the sample; keeps the invariant |
| AddrMan.CAddrMan.Erase | a3/a2/addrman.cpp:190-197 | the entry disappears from all three indexes and the count |
| AddrMan.CAddrMan.Unreference | a3/a2/addrman.cpp:190-198 | the entry leaves one bucket, and the book with its last one |
| AddrMan.CAddrMan.MakeTried | a3/a2/addrman.cpp:203-259 | the entry leaves all "new" buckets for its own "tried" bucket; if that is full, the entry that SelectTried selects goes back to its own "new" bucket or, if that is full, to where this one came from; keeps the five indexes linked |
| AddrMan.CAddrMan.LeaveNewBuckets | a3/a2/addrman.cpp:207-215 | the entry leaves all "new" buckets, and its reference count is then zero |
| AddrMan.CAddrMan.Evict | a3/a2/addrman.cpp:230-258 | the second half, when the "tried" bucket is full; the five indexes are linked again |
| AddrMan.CAddrMan.FindNewBucket | a3/a2/addrman.cpp:288-300 | the walk around from a random bucket finds one that holds the entry, if there is any |
| AddrMan.CAddrMan.Good_ | a3/a2/addrman.cpp:261-310 | for every time: stamps the entry and moves it to "tried", for address and port that match, and changes nothing otherwise; all five indexes stay linked, and the invariant is kept if and only if the time is positive |
| AddrMan.GoodStamp | a3/a2/addrman.cpp:261-310 | afterwards the entry is "tried" with that time as its last success, and the stamps of the book are in order if and only if it is positive |
| AddrMan.CAddrMan.LuckyAmong | a3/a2/addrman.cpp:344-349 | true exactly when the number drawn below 2^nRefCount is zero |
| AddrMan.CAddrMan.Refresh | a3/a2/addrman.cpp:323-330 | time and services of a known entry follow the news |
| AddrMan.CAddrMan.Place | a3/a2/addrman.cpp:358-366 | the entry is in the bucket, at the cost of one other entry when it was full; keeps the invariant |
| AddrMan.CAddrMan.Add_ | a3/a2/addrman.cpp:312-368 | new exactly for routable unknown addresses; the whole effect on the book, for every random choice; keeps the invariant |
| AddrMan.CAddrMan.Attempt_ | a3/a2/addrman.cpp:370-387 | counts the attempt of a matching entry and changes nothing else; keeps the invariant if and only if the time is not negative |
| AddrMan.CAddrMan.Connected_ | a3/a2/addrman.cpp:509-527 | moves the time of a matching entry by more than 20 minutes or not at all; keeps the invariant |
| AddrMan.CAddrMan.GetAddr_ | a3/a2/addrman.cpp:493-507 | at most 23 percent and at most 2500 different addresses of the book; only the order of vRandom changes |
| AddrOps.SwappedRandomOk | a3/a2/addrman.cpp:105-123 | an exchange in vRandom keeps the invariant |
| AddrOps.RestampedOk | a3/a2/addrman.cpp:261-282 | new times and attempts keep the five indexes linked, and the invariant exactly when the times are not negative and a tried entry keeps a success |
| AddrOps.CreatedOk | a3/a2/addrman.cpp:351-355 | a new entry keeps the invariant but for the place that it still needs |
| AddrOps.ReferencedOk | a3/a2/addrman.cpp:362 | and one reference more but for being one ahead of the buckets |
| AddrOps.DroppedOk | a3/a2/addrman.cpp:149-201 | dropping a place, and the entry with its last one, keeps the invariant: maps inverse, reference counts equal to the buckets that hold the id |
| AddrOps.InsertedOk | a3/a2/addrman.cpp:358-366 | one place more keeps the invariant |
| AddrOps.PromotedOk | a3/a2/addrman.cpp:203-228 | the move to "tried" keeps the five indexes linked |
| AddrOps.SwappedTriedBuckets | a3/a2/addrman.cpp:125-147 | an exchange in a "tried" bucket leaves every tried entry in its own bucket, once |
| AddrOps.ReplacedOk | a3/a2/addrman.cpp:230-258 | the eviction keeps the five indexes linked, every tried entry in its own bucket and no bucket above 64 |
| AddrCheck.CheckEntries | a3/a2/addrman.cpp:439-463 | the first loop passes exactly when every entry is consistent with counts, maps and vRandom |
| AddrCheck.CheckTried | a3/a2/addrman.cpp:465-473 | striking off passes exactly when the "tried" buckets hold every tried id once |
| AddrCheck.CheckNew | a3/a2/addrman.cpp:475-484 | counting down passes exactly when every id is in as many "new" buckets as its reference count says |
| AddrCheck.Check_ | a3/a2/addrman.cpp:434-490 | returns 0 if and only if the book is consistent |
| AddrCheck.BookPassesCheck | a3/a2/addrman.cpp:434-490 | the invariant that every operation keeps implies everything that Check_ checks |
| AddrCheck.LinkedPassesIff | a3/a2/addrman.cpp:434-490 | when the five indexes are linked, Check_ passes if and only if the time stamps are in order too |
| AddrCheck.GoodPassesIff | a3/a2/addrman.cpp:261-310 | after Good_ found its entry in a book in order, Check_ passes if and only if the time was positive |
| AddrStore.Save | a3/a2/addrman.h:279-317 | writes key, counts, entries and "new" buckets by the places of the entries in the file |
| AddrStore.SaveNew | a3/a2/addrman.h:283-295 | the "new" entries in ascending order, with their places |
| AddrStore.SaveTried | a3/a2/addrman.h:296-306 | the "tried" entries in ascending order |
| AddrStore.SaveBucket | a3/a2/addrman.h:307-317 | the size of a bucket and the places of its members |
| AddrLoad.LoadNew | a3/a2/addrman.h:327-339 | every "new" entry is back under its place in the file |
| AddrLoad.LoadTried | a3/a2/addrman.h:342-360 | every tried entry is back in its own bucket, and none is lost |
| AddrLoad.LoadBucket | a3/a2/addrman.h:363-376 | one bucket mirrors the saved one |
| AddrLoad.LoadBuckets | a3/a2/addrman.h:361-377 | all buckets mirror the saved ones |
| AddrLoad.RoomForTried | a3/a2/addrman.h:342-359 | no tried entry is lost on loading: its bucket has room |
| AddrLoad.LoadedOk | a3/a2/addrman.h:318-378 | what the loader builds meets the invariant |
| AddrLoad.LoadedIsomorphic | a3/a2/addrman.h:318-378 | and agrees with the saved book by address |
| AddrLoad.Load | a3/a2/addrman.h:248-380 | loading what was saved gives a book isomorphic by address: same key, counts, entries but for nLastTry and order, "new" memberships, reference counts, and "tried" buckets as sets; it meets the invariant |
| DataStream.CDataStream.InsertFront | a3/a2/serialize.h:822-833 | the contents get the bytes in front, whether there is room before the read position or not |
| DataStream.CDataStream.EraseFront | a3/a2/serialize.h:867-885 | the contents lose the bytes in front; an emptied buffer is reset |
| DataStream.CDataStream.Compact | a3/a2/serialize.h:887-891 | the contents stay, the read position is zero |
| DataStream.CDataStream.Read | a3/a2/serialize.h:929-950 | yields the bytes in front and drops them, or fails and drops nothing |
| DataStream.CDataStream.Ignore | a3/a2/serialize.h:952-970 | drops the bytes in front, or fails and drops nothing |
| DataStream.CDataStream.Write | a3/a2/serialize.h:972-978 | appends the bytes |
| DataStream.CDataStream.Resize | a3/a2/serialize.h:801 | cuts or fills up the contents, not the bytes already read |
| DataStream.CDataStream.Patch | a3/a2/net.h:372-381 | overwrites bytes in place and nothing else |
| Messages.CheckCommand | a3/a2/protocol.cpp:52-64 | printable characters, and after the first zero only zeros |
| Messages.CNode.BeginMessage | a3/a2/net.h:335-345 | gives up an unfinished message and writes a header without size and checksum |
| Messages.CNode.WriteData | a3/a2/net.h:428 | what a message writes goes behind its header |
| Messages.CNode.AbortMessage | a3/a2/net.h:347-358 | the buffer is back where the last finished message ends |
| Messages.CNode.EndMessage | a3/a2/net.h:360-390 | the buffer is the finished messages and one whole frame more; without a message begun nothing happens |
| Messages.CNode.PushMessage | a3/a2/net.h:422-436 | one whole frame is appended |
| Messages.CNode.Receive | a3/a2/net.cpp:883-898 | received bytes are appended |
| Messages.CNode.ProcessHeader | a3/a2/main.cpp:3079-3154 | one header: dispatches or skips as the scan does, or waits with the buffer as it was before the header was read |
| Messages.CNode.ProcessMessages | a3/a2/main.cpp:3040-3159 | dispatches, and leaves in the buffer, exactly what the scan of the received bytes says |
| Delivery.CommandArrives | a3/a2/protocol.cpp:38-64 | every valid command passes the check and comes back, cut off at twelve characters |
| Delivery.ScanFrame | a3/a2/main.cpp:3040-3159 | a whole frame in front is dispatched and the scan goes on behind it |
| Delivery.ScanPartial | a3/a2/main.cpp:3063-3102 | a part of a frame stays in the buffer |
| Delivery.CutPrefix | a3/a2/net.h:360-390 | every beginning of the bytes sent is some whole frames and a part of the next |
| Delivery.ScanFrames | a3/a2/main.cpp:3040-3159 | of any beginning of the bytes sent, one scan dispatches the whole frames and keeps the part |
| Delivery.AnySplitDelivers | a3/a2/main.cpp:3040-3159 | after any beginning of the bytes, in any split into chunks, exactly the messages whose frames are complete were dispatched, in order |
| Delivery.AllDelivered | a3/a2/main.cpp:3040-3159 | when all bytes have arrived, in any split, exactly the messages sent were dispatched in order and nothing is left |
| Delivery.Transfer | a3/a2/net.cpp:883-940 | one send and one receive move a chunk over, in order, and the receiver looks through what it holds |
| Delivery.Exchange | a3/a2/net.cpp:883-940 | pushes and transfers of any sizes in any order: at every moment exactly the messages whose frames came over completely were dispatched, in order, and the part of the next one waits; when the send buffer is empty, all that was pushed was dispatched |
| Compact.CompactIsClose | a3/a2/bignum.h:265-288 | for x >= 0: the number that comes back is x rounded down with a relative error below 2^-15, if and only if x has at most 2039 bits |
| Compact.CompactIsFixed | a3/a2/bignum.h:265-288 | for every x >= 0 a second pass changes nothing; the compact form stays the same too up to 2039 bits, and beyond whenever at least three bytes come back |
| Compact.CompactIsMonotone | a3/a2/bignum.h:265-288 | the pair keeps the order of all numbers below b if and only if b is at most 2^2039 |
| Compact.NegativeStays | a3/a2/bignum.h:265-288 | no negative number comes back positive, however long it is |
| Compact.SizeIff | a3/a2/bignum.h:277-288 | the MPI form of a positive number has at most k bytes exactly below 128 * 256^(k-1) |
| Compact.WrappedBack | a3/a2/bignum.h:277-288 | beyond that the length wraps around and far too little comes back |
| Retarget.Clamped | a3/a2/main.cpp:985-991 | the timespan counts as a quarter of the target timespan at least and four times it at most |
| Retarget.GetNextWorkRequired | a3/a2/main.cpp:948-1009 | the limit for a first block, the last bits between retargets, the test net rules, and otherwise the compact form of the rescaled and limited target |
| Retarget.RetargetIsBounded | a3/a2/main.cpp:979-1008 | a retarget never decodes above the limit; from a target that is not negative it decodes to at most four times that one and loses less than 2^-15 of the new one, and a negative one never becomes positive |
| BaseUint.BaseUint.Add | a3/a2/uint256.h:137-147 | addition modulo 2^BITS, for any number of words |
| BaseUint.BaseUint.Negate | a3/a2/uint256.h:49-56 | negation modulo 2^BITS |
| BaseUint.BaseUint.Subtract | a3/a2/uint256.h:149-153 | subtraction modulo 2^BITS |
| BaseUint.BaseUint.Increment | a3/a2/uint256.h:172-179 | one more, modulo 2^BITS |
| BaseUint.BaseUint.Decrement | a3/a2/uint256.h:189-196 | one less, modulo 2^BITS |
| BaseUint.BaseUint.ShiftLeft | a3/a2/uint256.h:103-118 | multiplication by 2^shift modulo 2^BITS, for every shift |
| BaseUint.BaseUint.ShiftRight | a3/a2/uint256.h:120-135 | floor division by 2^shift, for every shift |
| BaseUint.BaseUint.Less | a3/a2/uint256.h:207-217 | agrees with the numeric value, and so does > with its operands exchanged |
| BaseUint.BaseUint.LessOrEqual | a3/a2/uint256.h:219-229 | agrees with the numeric value, and so does >= |
| BaseUint.BaseUint.Equals | a3/a2/uint256.h:255-261 | equal words, equal numbers, and the other way round |
| BaseUint.BaseUint.GetHex | a3/a2/uint256.h:287-293 | a text of fixed length, only digits, that stands for the number |
| BaseUint.BaseUint.SetHex | a3/a2/uint256.h:295-325 | the number of the digits after white space and an optional 0x, modulo 2^BITS |
| BaseUint.BaseUint.ScanDigits | a3/a2/uint256.h:300-313 | the digits of the text, after white space and an optional 0x |
| BaseUint.BaseUint.StoreDigits | a3/a2/uint256.h:314-324 | stored from the last one on until the memory is full, the digits make their number modulo 2^BITS |
| BaseUint.BaseUint.GetByte | a3/a2/uint256.h:287-293 | the bytes of the words as they lie in memory |
| BaseUint.BaseUint.SetByte | a3/a2/uint256.h:314-324 | one byte changes and nothing else |
| BaseUint.HexRoundTrip | a3/a2/uint256.h:287-325 | SetHex of GetHex is the number |
| Words.ValWInjective | a3/a2/uint256.h:255-261 | different words, different numbers |
| Words.HigherWordDecides | a3/a2/uint256.h:207-217 | the highest word that differs decides the order of the numbers |
| Base58.EncodeBase58 | a3/a2/base58.h:27-65 | the accumulator loop writes a one for each zero byte in front and then the digits of the number |
| Base58.DecodeBase58 | a3/a2/base58.h:75-119 | accepts exactly digits between white space, and yields their bytes |
| Base58.DecodeUndoesEncode | a3/a2/base58.h:27-119 | decoding undoes encoding for every byte string, leading zeros and high top bytes included |
| Base58.EncodeUndoesDecode | a3/a2/base58.h:27-119 | encoding undoes decoding for every string of digits |
| Base58.TextDecodes | a3/a2/base58.h:82-111 | digits with white space around them decode as the digits |
| Base58.DecodedTextParts | a3/a2/base58.h:82-111 | and nothing else decodes |
| Base58.EncodeBase58Check | a3/a2/base58.h:132-139 | the bytes with four bytes of their hash, encoded |
| Base58.DecodeBase58Check | a3/a2/base58.h:143-160 | the bytes in front of a right checksum, or failure |
| Base58.CheckRoundTrip | a3/a2/base58.h:132-160 | the checked forms round trip for any hash |
| Base58.CheckAcceptsOnlyEncoded | a3/a2/base58.h:143-160 | a text that passes the check is the checked form of what it yields, with white space around it |
| Merkle.CBlock.BuildMerkleTree | a3/a2/main.h:848-865 | the flat array holds all levels, and its last hash is the recursively defined root |
| Merkle.CBlock.PushLevel | a3/a2/main.h:854-862 | appends the level above the last one, an odd last hash paired with itself |
| Merkle.CBlock.GetMerkleBranch | a3/a2/main.h:867-881 | the hashes beside the path of a leaf, from a fresh or an existing tree |
| Merkle.CheckMerkleBranch | a3/a2/main.h:883-896 | folds the branch onto the leaf by the bits of the index, for every index; zero for index -1 |
| Merkle.BranchLeadsToRoot | a3/a2/main.h:848-896 | for every non-empty block and every leaf, the branch leads from the leaf to the root |
| Merkle.BranchProves | a3/a2/main.h:883-896 | with a hash without collisions, only the leaf itself with its own branch leads to the root |
| Merkle.RootDeterminesLeaves | a3/a2/main.h:848-865 | with such a hash, lists of equal length have the same root if and only if they are the same |
| Merkle.RepeatedLastSameRoot | a3/a2/main.h:848-865 | lists of different lengths can have the same root: repeating the last one of any odd number of leaves above one changes nothing |
| Merkle.PaddedUp | a3/a2/main.h:848-865 | a list padded with copies of its last group at every level stays so one level up |
| Merkle.SameHeightIff | a3/a2/main.h:848-865 | with a hash without collisions, two lists whose trees have equally many levels have the same root if and only if both give the same list when padded at every level |
| Merkle.SameRootIff | a3/a2/main.h:848-865 | with such a hash, any two lists have the same root if and only if, from the level on that both trees have, both give the same padded list |
| Merkle.LongerHasTwins | a3/a2/main.h:848-865 | a list with the root of a shorter one, in a tree of equally many levels, has two equal neighbours in a pair somewhere in its tree |
| Merkle.LevelAboveSameRoot | a3/a2/main.h:848-865 | so trees with different numbers of levels can have the same root: a list and the level above it |
| Locator.IsInMainChain | a3/a2/main.h:1083-1086 | true exactly for the blocks on the path of the tip |
| Locator.WalkBack | a3/a2/main.h:1276-1278 | as many steps back as the step says, or past the genesis block |
| Locator.CBlockLocator.Set | a3/a2/main.h:1268-1283 | the hashes at the offsets 0 to 10 and then at doubling distances, and the genesis block |
| Locator.CBlockLocator.GetBlockIndex | a3/a2/main.h:1306-1320 | the first entry of the list on the main chain of the node, or else the genesis block |
| Locator.CBlockLocator.GetDistanceBack | a3/a2/main.h:1285-1304 | retraces the offset that Set used for that entry |
| Locator.FirstOffsetNotBelow | a3/a2/main.h:1268-1283 | the first offset that is not below d is d up to 11, and below 2d-9 from there on |
| Locator.EntriesTell | a3/a2/main.h:1306-1320 | an entry is on the main chain of the receiver exactly when its offset reaches back to the fork |
| Locator.LocatorFindsFork | a3/a2/main.h:1268-1320 | for a branch that leaves the receiver's main chain d blocks back, the block found is the fork itself up to d = 11, and a common ancestor less than 2d-9 back beyond |
| Miner.Collect | a3/a2/main.cpp:3513-3586 | for every pool: queues exactly the eligible transactions without parents in the pool, each once; every other eligible one waits for exactly its parents; the records that are gone and still named are told, and there is one exactly if some input in the pool stands before a missing one |
| Miner.CollectInputs | a3/a2/main.cpp:3526-3568 | for every pool: a transaction is left out exactly if an input is missing; it has a record exactly if an input before that is in the pool, and mapDependers names the record under exactly these parents |
| Miner.NoneDroppedIff | a3/a2/main.cpp:3535-3558 | no record is dropped while it is named if and only if every input before a missing one is on disk |
| Counterexamples.RecordIsDropped | a3/a2/main.cpp:3535-3558 | a pool of two transactions in which a record is dropped that mapDependers names |
| Miner.PopHeap | a3/a2/main.cpp:3600-3606 | takes out one element that none is above, in the order in force |
| Miner.CanAdd | a3/a2/main.cpp:3608-3647 | the tests of the loop: accepts exactly what none of the reasons refuses under the order in force, and turns to the order by fee exactly when the transaction says so |
| Miner.Release | a3/a2/main.cpp:3664-3680 | after a transaction is added exactly those become queued whose last parent it was |
| Miner.CreateNewBlock | a3/a2/main.cpp:3507-3681 | terminates; the block is what the tests choose from the transactions in the order in which they are taken; each one taken was ready, all its parents in the block, and none that was ready then is above it in the order in force; at the end none is ready; each transaction once, parents before children, within size and signature operation limits by its own counts |

## Left out

- ChainState.CChainState.SetBestChain: the mempool updates and the wallet's locator are left out, and after a failed postponed block only what is said above holds. A block without a parent must not name the tip as its parent, because the code then follows a null pointer; AddToBlockIndex never calls it so.
- ChainState.CChainState.AddToBlockIndex: the genesis block comes first, and no block names itself as its parent; the wallet hook and the on-disk block index are left out; the proof of work of a block is a number given with it.
- ChainState.CChainState.FindBlockByHeight: only for heights on the main chain; for others the code follows a null pointer.
- TxDb.ConnectBlock: only with fJustCheck false; the on-disk hashNext update of the previous block and the wallet are left out.
- TxDb.FetchInputs: the branches that read the memory pool are left out; the transaction that a disk read yields is part of the index entry.
- Supply.MoneyIsConserved: the subsidy is the mathematical halving, also from height 64 * 210000 on, where the shift in the code is undefined.
- AddrLoad.Load: for what Save wrote with the same number of "new" buckets; a file with another number of buckets, or a malformed one, is left out.
- AddrCheck.Check_: reading a missing address through mapAddr[] also inserts it in the code; the model only reads.
- Merkle.CBlock.GetMerkleBranch: the cached tree must be empty or belong to the transactions of the block; the code does not check it either.
- Miner.CreateNewBlock: only for pools in which no record is dropped while it is named, because following the name is undefined in the code; priorities and fees are given numbers, and the outcome of FetchInputs and ConnectInputs is a given predicate of what is in the block so far; the coinbase value and the final ConnectBlock are left out.
- Messages.CNode.ProcessMessages: flood control, a full send buffer, shutdown, and the second size test, which IsValid makes unreachable, are left out, and so is what ProcessMessage does with a message.
- Compact.CompactIsFixed: beyond 2039 bits, when fewer than three bytes come back, the number is kept but not always the compact form.
- Combine.CombinedIsAccepted: the signatures must be short enough to be pushed on the stack; the dispatcher CombineSignatures and signing are left out.
- Destinations.SetMultisig: both numbers are at most 16, as EncodeOP_N asserts.
- Interpreter.EvalScript: the stack that a failing script leaves is not stated; the code of the disabled instructions after the early return is left out.
- The memory pool in Reorganize and SetBestChainInner: resurrecting disconnected transactions into the memory pool and deleting connected ones from it.
- Disk errors of any kind, and the version and checkpoint rules of AcceptBlock.
- ComputeMinWork: it is not a lower bound over many retargets.
- OpenSSL's negative zero, and the 32-bit width of the signature operation count, which a script of at most 10000 bytes cannot fill.
- Select_ and GetChance: loops over probabilities with no bound on their rounds.
- The overloads of base_uint for 64-bit integers and the bitwise operators.
- CBase58Data and the classes built on it.
- Sockets, threads, RPC, user interface, wallet, alerts, and the cryptographic functions themselves.
