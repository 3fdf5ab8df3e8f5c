# Asimov, proved

Asimov is a full node for a multi-asset UTXO chain: it descends from btcd, chooses its best chain by
weight, and lets contract calls cause "virtual" transactions. This project models its hardest parts in
Dafny and proves what they are for.

| modules | what they model | what is proved in the end |
|---|---|---|
| `Congruence`, `Power`, `Field`, `FieldElement`, `FieldVals`, `FieldRing` | the ten 26-bit limbs of `crypto/field.go` | the unrolled product, square, reduction, inverse and square root are their one-line definitions modulo p, without any word wrapping around, also when receiver and argument are one object |
| `Curve`, `JacobianAlgebra`, `Jacobian`, `Group` | addition and doubling in Jacobian coordinates | every special form, and the dispatch over them, yields the sum of the points |
| `Naf`, `SplitScalar`, `ScalarMult`, `WindowTable`, `Lattice` | scalar multiplication, its precomputed table and the vectors that split a scalar | k times a point for a k of any length, on both routes |
| `Ledger`, `BlockOrder`, `UtxoView`, `Connecting`, `Disconnecting` | connecting and disconnecting a block with its virtual block | disconnecting restores the stored set of unspent outputs exactly |
| `BlockTree`, `ChainView`, `Locator`, `RoundSlot` | block nodes, the flat view of a branch, locators, the search for a round and slot | views are paths, forks are highest, locators are as long as reserved and cost at most double, and when the search finds what is there |
| `BestChain` | acceptance, extension and reorganisation as one machine | what each step does, exactly, and its invariant after every run, with any verdicts |
| `ChainState` | that machine with the stored set of unspent outputs and the journal | after every run, the stored set is the one the blocks on the path to the tip make |
| `Threshold`, `Orphans`, `Merkle` | deployment states with their caches, the orphan pool, the linear Merkle array | the cached answer is the uncached one; nothing releasable stays; the last slot is the root |
| `Vlq`, `Codec`, `CodecWriter` | the variable-length numbers and compressed records of the store | everything written reads back |
| `AddrMgr` | the buckets and references of the address manager | the bucket invariant after every run, and saving and loading |
| `ScriptVal` | the channel protocol that validates scripts | what its result means in every interleaving, and that it ends |
| `Conservation`, `BlockValue` | the value checks of a transaction and of a block | when a block is accepted, and that no block, and no chain, creates more than the subsidy |
| `Supply` | the value checks and the stored set of unspent outputs together | what circulates after a chain of accepted blocks is connected is what circulated before, at most the subsidies, what virtual transactions did, and what came back of coinbases already spent |
| `VirtualTx`, `VtxMsg`, `Rollback` | the changes a contract call collects, the message made from them, and the rollback | from the calls to the message, every asset and voucher is paid out as taken in and minted, less what was refused; what is paid back, and when |

What is supplied from outside is a parameter or a hypothesis: Fermat's little theorem for p and the group
law of the curve (`Fermat`, `GroupLaw`); hashes, scripts and signatures as opaque values; verdicts on
blocks, clocks, random draws and bucket hashes as arguments that may be anything. Storage does not fail.
Machine words are written out wherever they can wrap around: the 32-bit and 64-bit words of the field,
the 64-bit totals of amounts and fees, the 64-bit numbers of the encodings.
`Common` holds what several modules share.

## What is not as one would expect

Some promises do not hold of the code as it is. The model keeps the code, and states when they do hold.

- The order in which a block is disconnected is that of `MergeTxVtx`, and the order in which it was
  connected is not: they agree exactly when the version tags of the virtual transactions increase
  strictly (`BlockOrder.OrdersAgree`). The example in the comment on `MergeTxVtx` is outside this
  condition (`BlockOrder.SecondVirtualLost`).
- `Sqrt` works in place and always yields 1, so it is right exactly for the value 1 (`FieldVals.InPlaceRoot`);
  four has the root two, which it does not find (`FieldVals.InPlaceRootOfFour`).
- After a block is connected, its coinbase outputs are added once more to set their locks. An output that
  the block's own virtual transaction spent is thereby unspent again. This happens exactly if a virtual
  transaction of the block spends an output of its coinbase (`Supply.NothingRevived`); `Supply.RewardTwice`
  is an accepted block after which twice the subsidy circulates.
- Round and slot are compared with those of the parent when a block arrives, but not if it arrives before
  its parent. When it joins a side chain, and that chain takes over, the best chain need not be in order.
  A block that extends the tip keeps it in order; a reorganisation does exactly if every attached block
  comes after its parent (`BestChain.BlockChain.MaybeAcceptBlock`). `BestChain.LateTakesOver` is a branch with two
  blocks of one round and slot, or with a block that the search by round and slot does not find. The search
  finds every block at every time exactly if no block comes before its parent (`RoundSlot.SearchExact`).
- The orphan pool is cut back by dropping the oldest block it remembers. A pool within its
  limit exceeds it exactly if it is full and that block has left it already (`Orphans.OrphanPool.AddOrphanBlock`).
- A peers file that passes the sanity check gives a manager that meets its invariant exactly if no bucket
  of the file repeats a key or is overfull, no address has more than eight references, and none is tried
  twice (`AddrMgr.TidyValid`).
- Totals of amounts are added up without a check for overflow. A block still never creates more than the
  subsidy; it creates exactly the subsidy if and only if what is due fits signed 64 bits
  (`BlockValue.BlockConserves`); `BlockValue.ValueLost` is an accepted block where it does not.
- A rollback adds up the ids of vouchers as if they were amounts. Each voucher returns to its owner if and
  only if the sum of the ids fits signed 64 bits (`Rollback.UnitsReturn`, `Rollback.UnitsLost`).
- A change that would leave the permitted range is dropped, on one side of a transfer at a time. A
  transfer keeps the total if and only if both sides take it or both drop it
  (`VirtualTx.TransferConserves`, `VirtualTx.TransferLost`); likewise for vouchers
  (`VirtualTx.VoucherConserves`, `VirtualTx.VoucherLost`). Over any calls, the changes add up to what was
  minted less what was dropped (`VirtualTx.RunTotal`), so value is conserved if and only if what was
  dropped evens out (`VtxMsg.CallsConserve`).
- A terminated variable-length string survives decoding and encoding if and only if its number fits
  64 bits (`Vlq.DecodeExact`, `Vlq.EncodingSurvives`); `Vlq.TooLarge` is the encoding of 2^64, which
  decodes to zero.
- A deployment that is active or has failed returns to Defined when a window ends with a median time
  before the start time. Along a branch, locked-in, active and failed keep their outcome if and only if no
  later window does (`Threshold.OutcomeKept`); timestamps are not checked against those before them, and
  `Threshold.FailedFallsBack` and `Threshold.ActiveFallsBack` are branches where the outcome is lost.

## Model

| member | source | states |
|---|---|---|
| Field.MulLimbs | crypto/field.go:633-893 | for factors of magnitude at most 8 no 64-bit word wraps, the result has magnitude 1 and is the product modulo p |
| Field.SquareLimbs | crypto/field.go:913-1126 | the same for the square, with each mixed product added once and doubled |
| Field.Fold | crypto/field.go:818-868 | the first reduction step: twenty digits fold onto ten, exactly, with the part above 32 bits apart |
| Field.FoldTop | crypto/field.go:869-893 | the second reduction step: magnitude 1, and a multiple of p less |
| Field.NormalizeLimbs | crypto/field.go:260-379 | the result is the representative in [0, p) with 26-bit and 22-bit limbs, and no carry wraps |
| Field.NormalizedUnique | crypto/field.go:463-473 | comparing normalized limbs compares residues: congruent normalized vectors are equal |
| FieldElement.AddLimbs | crypto/field.go:542-582 | the sum, with magnitudes adding up and no word wrapping |
| FieldElement.MulIntLimbs | crypto/field.go:591-611 | the product with a small integer, as long as the magnitude stays at most 63 |
| FieldElement.NegateLimbs | crypto/field.go:480-511 | never underflows when the stated magnitude is valid; the value is (magnitude+1)p minus the old one |
| FieldElement.InverseLimbs | crypto/field.go:1133-1235 | the whole addition chain computes the power p-2 while every factor stays inside the bound of the product |
| FieldElement.InverseMeaning | crypto/field.go:1128-1133 | that power is the multiplicative inverse, and zero for zero |
| FieldElement.PackBytes | crypto/field.go:200-225 | the limbs of 32 big-endian bytes have the value of the bytes |
| FieldElement.UnpackBytes | crypto/field.go:389-426 | the bytes of normalized limbs have the value of the limbs |
| FieldElement.BytesRoundTrip | crypto/field.go:200-426 | writing normalized limbs as bytes and reading them back is the identity |
| FieldVals.FieldVal.Mul2 | crypto/field.go:633-893 | the product in place, also when the receiver is an argument or both arguments are one object |
| FieldVals.FieldVal.SquareVal | crypto/field.go:913-1126 | the square in place, also of the receiver itself |
| FieldVals.FieldVal.Normalize | crypto/field.go:260-379 | in place, for all limbs that can take the carries: normalized, and congruent to the old value |
| FieldVals.FieldVal.NegateVal | crypto/field.go:480-511 | in place, also of the receiver itself |
| FieldVals.FieldVal.Inverse | crypto/field.go:1133-1235 | in place: the power p-2 of the old value |
| FieldVals.FieldVal.SqrtVal | crypto/field.go:1248-1335 | the power (p+1)/4 of another element, by exponents tracked through every byte of the table; 1 when called on itself |
| FieldVals.SqrtMeaning | crypto/field.go:1237-1248 | that power squares back to the element whenever the element is a square |
| FieldVals.InPlaceRoot | crypto/field.go:1348-1350 | the in-place form meets its promise if and only if the element is 1 |
| FieldVals.InPlaceRootOfFour | crypto/field.go:1348-1350 | four is a square, and what the in-place form yields is not its root |
| JacobianAlgebra.DoubleStands | crypto/s256crypto.go:484-577 | the doubling formulas give coordinates of the tangent point |
| JacobianAlgebra.ChordStands | crypto/s256crypto.go:263-408 | the addition formulas give coordinates of the chord point |
| JacobianAlgebra.SameZStands | crypto/s256crypto.go:194-255 | so do the formulas for equal z, scaled differently |
| Curve.SumUnique | crypto/s256crypto.go:412-452 | the sum of two curve points is determined, so all routines that yield it agree |
| Jacobian.DoubleZ1EqualsOne | crypto/s256crypto.go:484-528 | doubling a point with z = 1 yields the sum of the point with itself, in magnitude 1 |
| Jacobian.DoubleGeneric | crypto/s256crypto.go:534-577 | the same for any z |
| Jacobian.DoubleJacobian | crypto/s256crypto.go:581-602 | doubling of any point, infinity and points with y = 0 included |
| Jacobian.AddZ1AndZ2EqualsOne | crypto/s256crypto.go:128-187 | the sum of two points with z = 1, equal and opposite points included, with the z of the general form |
| Jacobian.AddZ1EqualsZ2 | crypto/s256crypto.go:194-255 | the sum of two points with equal z, and which z it has |
| Jacobian.AddZ2EqualsOne | crypto/s256crypto.go:263-333 | the sum when the second z is 1, with the z of the general form |
| Jacobian.AddGeneric | crypto/s256crypto.go:339-408 | the sum for any z, and which z it has |
| Jacobian.AddJacobian | crypto/s256crypto.go:412-452 | the dispatch never changes the sum, infinity included, also when the result overwrites the first point |
| Jacobian.FormsAgree | crypto/s256crypto.go:128-408 | for different x, the general form and those for a z of 1 yield the same triple modulo p |
| Jacobian.SameZScales | crypto/s256crypto.go:194-255 | the form for equal z yields the triple of the general form, scaled by the powers of 2z^3 |
| Naf.NAF | crypto/s256crypto.go:688-756 | the marked digits are non-adjacent, and their value is the number, for any length |
| SplitScalar.SplitKCorrect | crypto/s256crypto.go:630-663 | k1 + k2 lambda is k modulo N, and both are below a2 < 2^129 in size, for every k |
| SplitScalar.ModuloReduceCorrect | crypto/s256crypto.go:668-679 | the reduced scalar has at most 32 bytes and differs by a multiple of N |
| ScalarMult.CubeRoots | crypto/s256crypto.go:950-951 | beta and lambda are cube roots of one other than one, modulo p and modulo N |
| ScalarMult.EndomorphismKeeps | crypto/s256crypto.go:773-779 | multiplying x by beta takes curve points to curve points |
| ScalarMult.SetByteSlice | crypto/field.go:234-242 | at most 32 bytes, aligned to the right, keep their value |
| ScalarMult.ToAffine | crypto/s256crypto.go:87-108 | the affine coordinates of the point, and zeros for infinity |
| ScalarMult.JointLoop | crypto/s256crypto.go:805-856 | the joint double-and-add yields the combination of both points with the values of both digit strings |
| ScalarMult.ScalarMult | crypto/s256crypto.go:760-860 | k times the point for every byte string k, given that N times it is infinity and lambda times it is its image |
| ScalarMult.ScalarBaseMult | crypto/s256crypto.go:865-882 | k times the base point for every byte string k, given a correct table |
| WindowTable.GetDoublingPoints | crypto/gensecp256k1.go:26-38 | entry i is 2^i times the base point |
| WindowTable.BytePoints | crypto/gensecp256k1.go:43-79 | the table is correct: entry i of window w is i 256^(31-w) times the base point |
| WindowTable.BaseMultiple | crypto/gensecp256k1.go:43-79 | with the generated table, base multiplication is multiplication, with nothing assumed of the table |
| Lattice.EndomorphismVectors | crypto/gensecp256k1.go:109-203 | both vectors are in the lattice, the first is short, they span it unless the stopping remainder is zero, and the second is the shorter neighbour |
| Lattice.ShortCoefficient | crypto/gensecp256k1.go:126-166 | along the extended Euclidean algorithm a coefficient is at most n over the remainder before it |
| Ledger.UndoRestores | blockchain/utxoviewpoint.go:189-317 | undoing a block from its journal restores the ledger exactly, spends inside the block included, also if outputs of the block were loaded back meanwhile |
| Ledger.ApplyResembles | blockchain/utxoviewpoint.go:382-431 | outputs of the block that were loaded ahead change neither the journal nor the resulting ledger |
| Ledger.Origin | blockchain/utxoviewpoint.go:101-183 | whatever some transactions of a block leave unspent is an old output or one of theirs |
| Ledger.AfterBlock | blockchain/utxoviewpoint.go:101-183 | after the transactions of a block an output is unspent if and only if it was unspent or is made by one of them and none of them spends it; old coins are as they were, new ones as made |
| BlockOrder.OrdersAgree | asiutil/tx.go:157-180 | the order of the merge is the order of connection if and only if the tags increase strictly inside the block |
| BlockOrder.SecondVirtualLost | asiutil/tx.go:151-156 | two virtual transactions of one transaction: both are listed, the second is never connected |
| BlockOrder.MergeTxVtx | asiutil/tx.go:157-180 | the loop yields the merged order |
| UtxoView.UtxoViewpoint.Spend | blockchain/txo/utxoentry.go:87-95 | the ledger shown loses exactly this output |
| UtxoView.UtxoViewpoint.Update | blockchain/txo/utxoentry.go:124-135 | the ledger shown gets exactly this coin |
| UtxoView.UtxoViewpoint.AddTxOut | blockchain/txo/utxoviewpoint.go:121-142 | worthless and unspendable outputs change nothing; others are in the ledger as new coins |
| UtxoView.UtxoViewpoint.AddTxOuts | blockchain/txo/utxoviewpoint.go:168-186 | the ledger shown gains exactly what the transaction creates |
| UtxoView.UtxoViewpoint.ConnectTransaction | blockchain/utxoviewpoint.go:24-94 | fails exactly when an input is not in the view; otherwise the ledger is the one after the transaction, and the records are the coins spent, in order |
| UtxoView.UtxoViewpoint.FetchUtxosMain | blockchain/utxoviewpoint.go:326-351 | the needed outputs are shown as they are stored, all others as before |
| UtxoView.UtxoViewpoint.FetchVtxInputUtxos | blockchain/utxoviewpoint.go:437-454 | every input is in the view afterwards, and the ledger shown is the same |
| UtxoView.UtxoViewpoint.SpendVirtual | blockchain/utxoviewpoint.go:141-172 | fails exactly when the virtual transaction cannot be paid for |
| Connecting.ConnectVirtual | blockchain/utxoviewpoint.go:136-174 | a virtual transaction is applied, and its coins recorded, if and only if it can be paid for |
| Connecting.UpdateFeeLockItems | blockchain/chain.go:559-581 | unless the map of fee locks is nil, the outputs of the coinbase are in the ledger once more, spent or not, and nothing else changes |
| Connecting.FetchInputUtxos | blockchain/utxoviewpoint.go:382-431 | every input is in the view or names a transaction of the block, and only outputs of the block were added |
| Connecting.ConnectTransactions | blockchain/utxoviewpoint.go:101-183 | with loaded inputs it succeeds if and only if every spend is of an unspent output; then the journal has each of them in order and the ledger is the one after the block, with the coinbase outputs added once more |
| Disconnecting.CountSpentOutputs | blockchain/chain.go:873-886 | the number of outputs the transactions of a block spend |
| Disconnecting.CountVtxSpentOutputs | blockchain/chain.go:889-905 | the number of outputs the virtual transactions spend, mint inputs not counted |
| Disconnecting.UndoOutputs | blockchain/utxoviewpoint.go:238-261 | exactly the spendable outputs of the transaction are gone |
| Disconnecting.UndoInputs | blockchain/utxoviewpoint.go:271-309 | exactly the coins of its records are back, each at its own input |
| Disconnecting.DisconnectTransactions | blockchain/utxoviewpoint.go:189-317 | refuses, leaving the view alone, if and only if the journal does not have one record per spend; otherwise the ledger is the one the undoing defines |
| Disconnecting.PutUtxoView | blockchain/chainio.go:612-649 | the stored set becomes the ledger the view shows |
| Disconnecting.Commit | blockchain/txo/utxoviewpoint.go:89-98 | after the view was stored it shows exactly the stored set, although the flag is toggled rather than cleared |
| Disconnecting.ConnectBlock | blockchain/chain.go:594-732 | the stored set is the ledger after the block, and the journal that of its spends |
| Disconnecting.StoredAfter | blockchain/chain.go:594-732 | an output is stored after the block if and only if the coinbase makes it, or it was stored or is made by a transaction or virtual transaction and none spends it; each coin is the stored one or as made |
| Disconnecting.DisconnectBlock | blockchain/chain.go:738-870 | the stored set is the one the block was connected to |
| Disconnecting.ConnectThenDisconnect | blockchain/utxoviewpoint.go:24-317 | for any block and virtual block with new distinct hashes, increasing tags and unspent inputs: connecting and disconnecting restores the stored set exactly |
| BlockTree.PathAt | blockchain/blockindex.go:116-136 | the node at height h of a path is its node number h, and the path to it is the path up to it |
| BlockTree.WeightBound | blockchain/blockindex.go:116-136 | the accumulated weight fits 64 bits for every 32-bit height |
| BlockTree.Ancestor | blockchain/blockindex.go:182-193 | the node of the path at the given height, and none outside of it |
| BlockTree.RelativeAncestor | blockchain/blockindex.go:200-202 | the node so many steps back, and none before the root |
| ChainView.ChainView.SetTip | blockchain/chainview.go:114-146 | whatever branch was shown before, the view is the path to the new tip |
| ChainView.ChainView.ContainsMeaning | blockchain/chainview.go:225-227 | containment is being an ancestor of the tip, or the tip |
| ChainView.ChainView.NextMeaning | blockchain/chainview.go:248-254 | the next node is the child on the branch; the tip and strangers have none |
| ChainView.ChainView.FindFork | blockchain/chainview.go:288-318 | the highest common ancestor; none if and only if nothing is shared |
| Locator.FastLog2Floor | blockchain/chainview.go:21-32 | the exponent of the highest power of two that is not above n |
| Locator.BlockLocator | blockchain/chainview.go:351-408 | the hashes of the ancestors at the heights of the locator, for a node on or off the view |
| Locator.LocatorLength | blockchain/chainview.go:351-408 | the length is height+1 up to 12, and 12 plus the logarithm of height-10 above: what is reserved |
| Locator.LocatorDescends | blockchain/chainview.go:351-408 | the heights fall strictly |
| Locator.LocatorEnds | blockchain/chainview.go:351-408 | the first entry is the node itself, the last the genesis block |
| Locator.StrideFits | blockchain/chainview.go:351-408 | no stride that is used exceeds a 32-bit height |
| Locator.LocateInventory | blockchain/chain.go:2498-2543 | the first block after the first locator entry on the branch, and how many up to the stop hash or the limit |
| Locator.LocateBlocks | blockchain/chain.go:2552-2572 | the consecutive hashes of the branch from there on |
| Locator.AnswerBound | blockchain/chain.go:2498-2572 | a peer that forks at height f answers from at most f+1 on and repeats at most as many shared blocks as the asker is above f |
| RoundSlot.GetNodeByRoundSlot | blockchain/process.go:129-166 | walking back and bisecting compute the search; what it finds is on the chain and has the round and slot, and if no block comes before its parent it finds nothing only if there is nothing |
| RoundSlot.SearchExact | blockchain/process.go:129-166 | with each block of the branch as the tip, the search finds every block under it, if and only if no block comes before its parent |
| RoundSlot.OrderedAgain | blockchain/validate.go:402-406 | when another branch takes over from an ordered one, it is ordered if and only if each of its new blocks comes after its parent |
| RoundSlot.StampUnique | blockchain/validate.go:402-406 | the blocks of a branch on which none comes before its parent have different rounds and slots if and only if each comes after its parent |
| BestChain.BlockChain.constructor | blockchain/chain.go:2831-2927 | a chain of the genesis block alone meets the invariant |
| BestChain.BlockChain.GetReorganizeNodes | blockchain/chain.go:510-556 | both sides of the fork, if the branch is clear of invalid blocks; otherwise there is nothing to do and exactly the blocks above the highest invalid one are flagged |
| BestChain.BlockChain.CheckAttach | blockchain/chain.go:1042-1102 | passes if and only if every block passes; the blocks before the first that does not pass are valid, that one has failed exactly if it breaks a rule, and then all after it are invalid; no other flag changes |
| BestChain.BlockChain.MoveTip | blockchain/chain.go:1104-1170 | block by block, the view ends as the path to the new tip |
| BestChain.BlockChain.ReorganizeChain | blockchain/chain.go:918-1188 | the best chain moves to the node if and only if all checks pass and the tip is not the genesis block; otherwise it is unchanged; the flags are exactly those the checks leave |
| BestChain.BlockChain.ExtendTip | blockchain/chain.go:1239-1326 | extends the tip if and only if the block is in turn and passes, and then comes after it; otherwise the chain stays; the flags after it are stated exactly |
| BestChain.BlockChain.ConnectBestChain | blockchain/chain.go:1225-1369 | the new block becomes the tip if and only if it extends the tip, in turn and passing, or is heavier on a clear branch that passes; otherwise the best chain is unchanged; flags and both answers are stated exactly |
| BestChain.BlockChain.MaybeAcceptBlock | blockchain/accept.go:25-115 | a block enters the index if and only if its parent is known and not invalid and the block fits its round and, unless it is added fast, its place; then tip, flags and answers are exactly those of offering it to the best chain, and otherwise nothing changes. The invariant is kept: the best chain is the path to its tip, no block of it is invalid, every invalid-ancestor flag has a failed proper ancestor, and weight never falls; an ordered chain stays ordered if and only if each block that joined comes after its parent |
| BestChain.Run | blockchain/process.go:178-271 | over every run of blocks, with any verdicts, the invariant holds, the tips never lose weight, and each block makes exactly its step |
| BestChain.LateTakesOver | blockchain/process.go:67-114 | a block that arrived before its parent takes over whatever its slot; the best chain is then out of order unless the slot is later than the parent has |
| ChainState.StoredIs | blockchain/chain.go:594-732 | the stored set of a branch is what connecting its blocks one by one gives |
| ChainState.State.constructor | blockchain/chain.go:2831-2927 | at the genesis block the stored set and the empty journal are those of the tip |
| ChainState.State.Attach | blockchain/chain.go:594-732 | connecting a child of the tip gives the stored set and the journal of that branch |
| ChainState.State.Detach | blockchain/chain.go:738-870 | disconnecting the tip from its journal entry gives back those of its parent |
| ChainState.State.Move | blockchain/chain.go:1104-1170 | detaching down to the fork and attaching up to the new tip gives the stored set and the journal of the new branch |
| ChainState.State.Accept | blockchain/accept.go:25-115 | one step of the best chain, exactly, keeps best chain, stored set and journal together |
| ChainState.Run | blockchain/process.go:178-271 | after any blocks, if what validation passes can be connected, the stored set is what connecting the blocks on the path to the tip makes, and the best chain went there step by step |
| ChainState.CirculatingAtTip | blockchain/chain.go:918-1188 | so at any time the subsidies of the best chain bound what circulates |
| Threshold.CalcPastMedianTime | blockchain/blockindex.go:208-241 | the middle one of the sorted times of the last blocks |
| Threshold.TimesAre | blockchain/blockindex.go:208-241 | the times collected are those of the last blocks, at most so many |
| Threshold.MedianRank | blockchain/blockindex.go:208-241 | of the last eleven times at most half are earlier, and more than half are not later |
| Threshold.SameInWindow | blockchain/thresholdstate.go:135-139 | all blocks of a window get the same state |
| Threshold.VotesCount | blockchain/thresholdstate.go:216-235 | the count of votes is the number of blocks of the window that vote for the change, if all votes can be read, and an error otherwise |
| Threshold.StateIff | blockchain/thresholdstate.go:145-257 | for each state, the exact condition under which a window ends in it: on its median time, the state before it and the number of its votes |
| Threshold.StateForIs | blockchain/thresholdstate.go:127-143 | the state of a block is that at the end of the last window that is over before it, and Defined if there is none |
| Threshold.OutcomeKept | blockchain/thresholdstate.go:127-257 | along any branch, every window after a locked-in, active or failed one has the outcome if and only if none of them ends with a median before the start time |
| Threshold.TerminalStays | blockchain/thresholdstate.go:127-257 | if medians never fall, locked-in is followed by active, and active and failed are permanent along a branch |
| Threshold.FailedFallsBack | blockchain/thresholdstate.go:145-175 | a branch on which a failed deployment is defined again |
| Threshold.ActiveFallsBack | blockchain/thresholdstate.go:145-175 | a branch on which an active deployment is defined again |
| Threshold.ThresholdState | blockchain/thresholdstate.go:127-257 | from any consistent cache the answer is the uncached one, unreadable votes included, and the cache stays consistent |
| Orphans.OrphanPool.RemoveOrphanBlock | blockchain/chain.go:295-326 | the block leaves both maps, which still mirror each other, also if it had left before |
| Orphans.OrphanPool.Expire | blockchain/chain.go:336-347 | exactly the expired blocks go, and the oldest of the rest is found |
| Orphans.OrphanPool.AddOrphanBlock | blockchain/chain.go:334-374 | the new block is in; of the others only the expired go, and when the pool is full one that is not younger than any; a pool within its limit exceeds it if and only if it is full and the remembered oldest block has left it |
| Orphans.OrphanPool.ProcessOrphans | blockchain/process.go:67-114 | ends; succeeds if and only if every descendant of the accepted block in the pool is accepted, and then exactly those leave it; otherwise only descendants left it, all accepted but one |
| Merkle.LowBitTest | blockchain/merkle.go:16-20 | the bit test recognises exactly the powers of two |
| Merkle.NextPowerOfTwo | blockchain/merkle.go:16-25 | the least power of two that is not below n |
| Merkle.NilSlots | blockchain/merkle.go:62-67 | a slot is nil if and only if no transaction stands under it |
| Merkle.BuildMerkleTreeStore | blockchain/merkle.go:71-108 | the last slot is the root of the level-by-level definition with odd nodes doubled, for every non-empty list |
| Merkle.SmallTrees | blockchain/merkle.go:29-67 | the roots of one to five transactions, written out |
| Vlq.RoundTrip | blockchain/compress.go:64-109 | decoding undoes encoding, whatever follows, and reads exactly the encoding |
| Vlq.Examples | blockchain/compress.go:33-44 | the example encodings of the format |
| Vlq.PrefixFree | blockchain/compress.go:16-31 | no encoding is the beginning of another |
| Vlq.Onto | blockchain/compress.go:16-31 | every terminated string is the encoding of exactly one number |
| Vlq.DecodeExact | blockchain/compress.go:96-109 | a terminated string survives decoding and encoding if and only if its number fits 64 bits |
| Vlq.EncodingSurvives | blockchain/compress.go:64-109 | an encoding survives decoding if and only if its number fits 64 bits |
| Vlq.TooLarge | blockchain/compress.go:96-109 | the encoding of 2^64 is read to its end and decodes to zero |
| Vlq.SerializeSizeVLQ | blockchain/compress.go:55-62 | the exact length of the encoding |
| Vlq.PutVLQ | blockchain/compress.go:69-91 | writing groups backwards and reversing them in place writes the encoding and nothing else |
| Vlq.DeserializeVLQ | blockchain/compress.go:96-109 | the loop yields the decoded number and what it read |
| Codec.ScriptRoundTrip | blockchain/compress.go:277-512 | every script, of every recognised kind or none, survives compression |
| Codec.ScriptLayout | blockchain/compress.go:277-411 | the scripts of each recognised kind of hash compress to its tag and the hash |
| Codec.CompressCode | blockchain/compress.go:313-337 | the size read from the first bytes is the size of the compressed script, whatever follows |
| Codec.TxOutRoundTrip | blockchain/compress.go:544-594 | an output decodes to itself from exactly its own bytes, whatever follows |
| Codec.CoinRoundTrip | blockchain/chainio.go:167-232 | a spent output decodes to itself from exactly its own bytes |
| Codec.CoinLayout | blockchain/chainio.go:167-195 | the bytes of a record, one by one: height and coinbase flag, little-endian amount, script, and big-endian asset |
| Codec.JournalRoundTrip | blockchain/chainio.go:240-308 | the journal of a block reads back as it was written |
| Codec.KeysDiffer | blockchain/chainio.go:457-477 | different outputs have different keys, none the beginning of another |
| CodecWriter.PutCompressedScript | blockchain/compress.go:360-411 | writes the compressed script and nothing else |
| CodecWriter.PutCompressedAsset | blockchain/compress.go:348-353 | writes the asset and nothing else |
| CodecWriter.PutCompressedTxOut | blockchain/compress.go:555-561 | writes the output and nothing else |
| CodecWriter.PutSpentTxOut | blockchain/chainio.go:190-195 | writes the record and nothing else |
| CodecWriter.CoinSize | blockchain/chainio.go:181-184 | the exact length of a record |
| CodecWriter.SerializeSpendJournalEntry | blockchain/chainio.go:288-308 | the buffer is filled exactly, with the records in reverse |
| CodecWriter.DeserializeSpendJournalEntry | blockchain/chainio.go:240-284 | the records, or none if the bytes do not hold so many; an empty entry is right only for no spends |
| CodecWriter.StoreAndFetch | blockchain/chainio.go:240-308 | writing a journal and reading it back gives the same records |
| AddrMgr.InvMeaning | addrmgr/addrmanager.go:245-298 | references are the number of new buckets that hold the address, at most 8; tried if and only if without references if and only if in a tried bucket, and then at one place only |
| AddrMgr.AddrManager.UpdateAddress | addrmgr/addrmanager.go:169-241 | keeps the invariant; the exact effect of a report: a new address is in its bucket with one reference, a known one gets one more exactly when it is untried, below the limit, drawn, and not in the bucket; an over-full bucket expires first; time and services are noted, and nothing else recorded changes |
| AddrMgr.AddrManager.ExpireNew | addrmgr/addrmanager.go:245-281 | exactly the bad entries and an oldest of the others leave the bucket; those without references left are forgotten; of the rest only the count changes |
| AddrMgr.AddrManager.PickTried | addrmgr/addrmanager.go:286-298 | the first of the oldest entries of its bucket |
| AddrMgr.AddrManager.LeaveAll | addrmgr/addrmanager.go:893-907 | the address is in no new bucket any more, nothing else left one, and the bucket returned is the first it was in |
| AddrMgr.AddrManager.Attempt | addrmgr/addrmanager.go:829-842 | counts the attempt; no place and no other address changes |
| AddrMgr.AddrManager.Connected | addrmgr/addrmanager.go:847-865 | notes the time when twenty minutes have passed; no place and no other address changes |
| AddrMgr.AddrManager.SetServices | addrmgr/addrmanager.go:957-973 | notes the services; no place and no other address changes |
| AddrMgr.AddrManager.Good | addrmgr/addrmanager.go:870-954 | keeps the invariant; the exact effect: the address leaves every new bucket and is tried, at the end of its tried bucket or, when that is full, in place of the first of its oldest entries, which goes to its own new bucket or, when that is full, to the first bucket left |
| AddrMgr.AddrManager.Evict | addrmgr/addrmanager.go:924-953 | in a full tried bucket it takes the place of the first of the oldest entries, which is untried again with one reference, in the bucket stated; nothing else changes |
| AddrMgr.Run | addrmgr/addrmanager.go:169-298 | after any calls on a fresh manager, each of which had exactly its effect, the invariant of references, buckets and counters holds |
| AddrMgr.SavePeers | addrmgr/addrmanager.go:364-420 | the file lists every address and every bucket |
| AddrMgr.DeserializePeers | addrmgr/addrmanager.go:443-529 | fails on an unknown key, and if and only if some address then has no place or two kinds of place; otherwise buckets, references and counters are those of the file, repeated keys counted twice, and the invariant holds if and only if the file is tidy |
| AddrMgr.TidyValid | addrmgr/addrmanager.go:443-529 | an accepted file gives a valid manager if and only if no bucket repeats a key or is overfull, no key has more than eight references, and none has two tried places |
| AddrMgr.SaveAndLoad | addrmgr/addrmanager.go:364-529 | loading a saved file rebuilds buckets, counters and every address with all its fields, but for the time, which is that of the loading |
| ScriptVal.SuccessMeans | blockchain/scriptval.go:114-168 | in every interleaving, no error means that every item was validated, successfully, exactly once |
| ScriptVal.FailureMeans | blockchain/scriptval.go:114-168 | an error means that the item it names is invalid |
| ScriptVal.NeverStuck | blockchain/scriptval.go:114-168 | while the coordinator runs some communication can take place |
| ScriptVal.Progress | blockchain/scriptval.go:41-168 | every communication lowers a bound on what remains |
| ScriptVal.CanExit | blockchain/scriptval.go:51-110 | once quit is closed, every worker that has not returned can go on towards returning |
| ScriptVal.EndOfRun | blockchain/scriptval.go:41-168 | a run that cannot go on has a result and no worker left, after at most 2n + m communications |
| Conservation.CheckTransactionSanity | blockchain/validate.go:226-268 | passes if and only if every value is positive, but for calls, and no divisible asset exceeds the maximum in all; no total wraps |
| Conservation.CheckTransactionInputs | blockchain/validate.go:918-1123 | passes if and only if the inputs can be spent, ids are distinct and the same on both sides, and every divisible asset is funded; the fees are what is left of each |
| Conservation.NeverPaysMore | blockchain/validate.go:918-1123 | whatever wraps around, a transaction that passes pays out no more of an asset than it takes in |
| Conservation.SameUnits | blockchain/validate.go:1053-1082 | comparing sizes and one inclusion decides equality of the ids |
| BlockValue.MergeFees | blockchain/validate.go:1674-1693 | fails if and only if some total would fall; otherwise each is the 64-bit sum |
| BlockValue.CheckTransactions | blockchain/validate.go:1372-1392 | passes if and only if every transaction passes, pays in allowed assets, and no total falls when it is merged; the totals are what was left, modulo 2^64 |
| BlockValue.FitsNoneSinks | blockchain/validate.go:1674-1693 | totals that fit signed 64 bits never fall, so the merge refuses none of them |
| BlockValue.CheckCoinbase | blockchain/validate.go:1563-1586 | passes if and only if the coinbase pays, asset by asset, exactly the fees and the subsidy |
| BlockValue.BlockConserves | blockchain/validate.go:1372-1432 | of each divisible asset no more than the subsidy is added, and exactly that if and only if what is due fits signed 64 bits; each indivisible unit is kept |
| BlockValue.CheckBlock | blockchain/validate.go:1372-1432 | accepts a block if and only if its transactions pass, no merge fails, and the coinbase pays what is due; then every asset is conserved |
| BlockValue.ValueLost | blockchain/validate.go:1674-1693 | a block that is accepted and loses most of a token, because its total wraps around |
| BlockValue.SubsidyIs | blockchain/validate.go:193-200 | the subsidy is the base subsidy divided by two to the number of whole intervals, and the base subsidy if there is no interval |
| BlockValue.EraIssues | blockchain/validate.go:193-200 | what the blocks of one interval add, exactly |
| BlockValue.TotalSubsidy | blockchain/validate.go:193-200 | however long the chain, the subsidies stay below twice an interval of the base subsidy |
| BlockValue.MainNetSubsidy | chaincfg/params.go:176 | with the interval of the main net they never exceed the maximum amount |
| BlockValue.ChainConserves | blockchain/validate.go:1372-1432 | over a chain of accepted blocks, their subsidies bound what is added of the native asset, and nothing is added of any other |
| BlockValue.MainNetSupply | common/const.go:9-13 | on the main net a chain never creates more than the maximum amount |
| Supply.BlockWorth | blockchain/utxoviewpoint.go:101-183 | connecting a block changes the sum of the stored coins of an asset by what its values add and its virtual transactions do, less what is burned, and by the coinbase outputs that come back |
| Supply.AcceptedWorth | blockchain/validate.go:1372-1432 | for an accepted block that is at most the subsidy, what the virtual transactions do and what comes back, and exactly that if and only if nothing is burned and what is due fits signed 64 bits |
| Supply.NothingRevived | blockchain/chain.go:559-581 | coinbase outputs come back after they were spent if and only if a virtual transaction of the block spends one |
| Supply.RewardTwice | blockchain/chain.go:559-581 | an accepted block whose reward is spent by its own virtual transaction and stored all the same: twice the subsidy circulates |
| Supply.ChainWorth | blockchain/chain.go:594-732 | over a chain, the stored coins of the native asset grow by at most the subsidies, and of other assets not at all, apart from virtual transactions and what comes back |
| Supply.ChainRests | blockchain/chain.go:559-581 | over a chain nothing comes back if and only if no block has a virtual transaction that spends its own coinbase |
| Supply.ConnectChain | blockchain/chain.go:594-732 | connecting the blocks one by one leaves the stored set of the whole chain, with that bound on every divisible asset |
| VirtualTx.TransferConserves | vm/fvm/core/virtualtx/virtual_tx.go:60-73 | a transfer keeps the total if and only if both sides take it or both drop it, a side being dropped exactly if it would leave the range |
| VirtualTx.TransferLost | vm/fvm/core/virtualtx/virtual_tx.go:175-187 | two transfers of the maximum to one address: the second leaves and does not arrive |
| VirtualTx.StoryTold | vm/fvm/core/virtualtx/virtual_tx.go:60-94 | five units created for one address, of which it sends three to another: the changes, the flags and the totals |
| VirtualTx.VoucherConserves | vm/fvm/core/virtualtx/virtual_tx.go:189-202 | a voucher stays in balance if and only if both sides, or neither, repeat an entry; other vouchers are untouched |
| VirtualTx.VoucherLost | vm/fvm/core/virtualtx/virtual_tx.go:189-202 | two addresses send one voucher to a third: it leaves twice and arrives once |
| VirtualTx.VirtualTransaction.AppendVTransfer | vm/fvm/core/virtualtx/virtual_tx.go:60-73 | of the asset sent, the sender loses and the receiver gains the amount, each unless its side is refused; nobody else, no other asset or voucher and no flag changes |
| VirtualTx.VirtualTransaction.AppendVCreation | vm/fvm/core/virtualtx/virtual_tx.go:75-94 | only the receiver gains, by the amount unless it is refused; the mint and creation flags get exactly this asset |
| VirtualTx.RunTotal | vm/fvm/core/virtualtx/virtual_tx.go:60-187 | over any calls, the changes of an asset or a voucher add up to what was minted less what was refused |
| VtxMsg.TryUseOneOut | blockchain/chain.go:2204-2239 | an output is spent at most once, and what exceeds the amount is paid back |
| VtxMsg.TakeAmount | blockchain/chain.go:2041-2063 | exactly the amount is taken from the first outputs that make it up, what is over is paid back, and it succeeds if and only if the outputs make it up |
| VtxMsg.CoversAll | blockchain/chain.go:2041-2063 | some first outputs make an amount up if and only if all together do, no output being negative |
| VtxMsg.TakeUnit | blockchain/chain.go:2184-2200 | the voucher is taken if and only if the owner has it unspent |
| VtxMsg.GenVtxMsg | blockchain/chain.go:1984-2115 | succeeds if and only if every owner has outputs that make up each loss and holds each voucher to be given; then every address gains or loses exactly its change of every asset and voucher, no output is spent twice, and the mint mark is there if and only if something was minted |
| VtxMsg.SettledTotal | blockchain/chain.go:2026-2065 | then the outputs of an asset, and of a voucher, exceed the inputs by the sum of the changes |
| VtxMsg.Execute | blockchain/chain.go:1984-2115 | from any calls to the message: it is made if and only if every loss is covered, and then of every divisible asset and voucher, outputs are inputs and what was minted less what was refused |
| VtxMsg.CallsConserve | blockchain/chain.go:1984-2115 | outputs are inputs and what was minted, of an asset or a voucher, if and only if what was refused adds up to nothing |
| Rollback.GenRollbackMsg | blockchain/chain.go:2139-2181 | each positive output is spent once, and the inputs of each asset are served in order from the sum of its outputs; fails only if an input cannot be found |
| Rollback.BackFair | blockchain/chain.go:2160-2178 | each payment goes to the script of the input it serves and is no more than that input |
| Rollback.BackInOrder | blockchain/chain.go:2160-2178 | the first inputs get back all of theirs, the next what is left, and the others nothing |
| Rollback.AmountsReturn | blockchain/chain.go:2139-2181 | what a transaction paid out of a divisible asset is paid back in full |
| Rollback.UnitsReturn | blockchain/chain.go:2139-2181 | each unit of an indivisible asset returns to its own script if and only if the ids add up to less than 2^63 |
| Rollback.UnitsLost | blockchain/chain.go:2139-2181 | ten vouchers with the largest ids pass every check and do not return |

## Left out

- Contract execution, the state database, gas, receipts, system contracts and round managers: foreign calls; a block's verdict, the virtual block and the collected changes are arguments.
- Lock items, vote values and the merging of fee locks: only their effect on the set of unspent outputs is modelled (`Connecting.UpdateFeeLockItems`).
- The database, the encoding of files, DNS, sockets, RPC, configuration, logging and notifications.
- SHA-256, Keccak, RIPEMD, the script interpreter and the recovery of a y coordinate of a public key: opaque functions; compressed keys are assumed to decompress to themselves (`Faithful`).
- Floating-point policies: ban scores, the chance of an address, the share of the core team.
- The connection manager, DER parsing, sequence locks and the gas limit of a block: easier than what is here.
- Newton's method for the root of the order in `EndomorphismVectors`: the root is an argument; the loop does not end for every number (it alternates for 3).
- The checks of `reorganizeChain` on hashes that cannot fail for lists made by `getReorganizeNodes`.
- The parts of `checkCoinbaseTx` on the core team and on contract data, which can only refuse more blocks.
- The branch of `Good` for an address in no new bucket: the invariant excludes it.
- The order in which `GenVtxMsg` sorts assets and addresses: the results hold for every order; the outputs of an address come from a lookup that finds only its own.
- Numeric order of encoded numbers of different lengths: it does not hold.
- Goroutines, locks and memory models: `ScriptVal` models the channels as steps that interleave in any order; elsewhere one call runs at a time.
- FieldVals.FieldVal.Normalize: is stated for limbs to which any carry can be added within 32 bits, which is more than magnitude 63; values beyond are never made by the curve code.
- ScalarMult.ScalarMult: takes as hypotheses that N times the point is infinity and that lambda times it is its image under the endomorphism, which hold for every point of the group.
- Disconnecting.ConnectBlock: is stated for blocks whose inputs are unspent and whose hashes are new, as the checks before it ensure.
- BestChain.BlockChain.ConnectBestChain: its first answer is not being on the main chain, since the code also gives true when an invalid block stops a heavier branch; the contract says so.
- AddrMgr.SaveAndLoad: the times of addresses are not restored, because the code takes them from the clock when it loads.
- AddrMgr.DeserializePeers: says nothing of the counters after a failed load, which the Go code does not reset.
- Conservation.CheckTransactionSanity: models the loop over the outputs; the checks on size, on repeated or null inputs, on the coinbase script and on gas only refuse more.
- Conservation.CheckTransactionInputs: is about ordinary transactions, since coinbase and virtual ones pass at once; the fee in another currency is not computed.
- VtxMsg.GenVtxMsg: the view is taken with the entries that looking up an address adds to it, and neither that lookup nor the making of a script fails.
- BlockValue.CheckBlock: the value of virtual transactions is the subject of `VtxMsg` and `Rollback`, not of the block theorem.
- Supply.ConnectChain: keeps what the virtual transactions change as a term; `VtxMsg.Execute` says what that is for one call.
- ChainState.Run: takes as a hypothesis that a block that passes validation, or replays, can be connected to the stored set of its parent, and takes the virtual block as determined by the block.
- Merkle.BuildMerkleTreeStore: the exponent is the exact logarithm; the code rounds a floating-point one, and that the two agree is not shown.
