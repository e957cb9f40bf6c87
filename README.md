# Block index and gossip node

This project models two stateful parts of a small cryptocurrency simulation
and proves properties of them in Dafny.

- `blockchain.dfy` (module `Blockchain`) is the block index. A map from block
  hash to a node records each stored block together with its height and the
  unspent-output pool (UTXO pool) after it. `AddBlock` accepts a block only
  when all of these hold: it names a parent, the parent is stored, the block
  is not too far below the current tip (`CUT_OFF_AGE = 10`), and the
  transaction handler accepts every one of its transactions. The new node's
  pool is the handler's pool plus the block's coinbase output. The tip moves
  only to a strictly higher node, so the first block seen at a height wins.
  Pools are copied whenever they are read out, so no caller can reach a
  stored pool.
  The class `BlockChain` keeps the source's fields: the `index` map, the tip
  `maxHeightNode` and the transaction pool. It also carries a ghost abstract
  value `chain`. Every method is proved against value-level functions:
  `GenesisChain`, `Admit`, `AddBlockTo` and `AddTransactionTo`. The
  properties are lemmas about those functions: the rejection frame, the
  success case, tip monotonicity, first-seen-wins and the index invariant
  over any sequence of calls.
- `consensus.dfy` (module `Consensus`) is the honest gossip participant
  `CompliantNode`. It keeps a pending set, a cumulative sent set and a round
  counter. `SendToFollowers` moves pending into sent. It returns the round's
  batch, or everything ever sent once the final round is reached.
  `ReceiveFromFollowees` takes a candidate only when its sender is a
  followee, its transaction is in the shared honest set and the node has not
  already sent it. In the source, the process-wide honest set is a static
  field. Here it is a `Registry` object that every node of one simulation
  shares by reference. The methods are proved against `Send` and `Receive`
  on the value `Gossip`. Lemmas over `Rounds` and `Outputs` show that the
  counter stays bounded and that the sent set only grows. They also show
  that pending and sent stay disjoint, and that every transaction handed to
  followers is recorded as sent.

The index invariant `Inv` says these things about every stored node: it is
keyed by its block's hash, it is linked to a stored parent one level lower,
and it is no higher than the tip; the tip is itself stored. This invariant
(`BlockChain.Sound`) needs hashes to bind blocks (`HashBindsBlock`): a block
stored under a hash must be the block later offered with that hash, as a
cryptographic digest ensures. The source overwrites the map entry when a
different block arrives under a stored hash, so `AddBlock` does not require
this. It only promises soundness under it.

`CompliantNode` keeps no record of malicious followees: it filters candidates
only on the followee flags and the shared honest set
(`CompliantNode.java:45-51`). The comment at `BlockChain.java:6-8` asks for
a bounded number of stored nodes, but no code removes an entry, so the
model keeps every node.

## Model

| member | source | states |
|---|---|---|
| Blockchain.WithCoinbase | src/main/java/com/joybean/cryptocurrency/blockchain/BlockChain.java:30-33 | the pool gains exactly the key (coinbase hash, 0), bound to coinbase output 0; every other entry is kept |
| Blockchain.GenesisChain | src/main/java/com/joybean/cryptocurrency/blockchain/BlockChain.java:19-28 | after construction the index holds exactly the genesis hash, the tip is genesis at height 0, its pool holds exactly the coinbase output, and the transaction pool is empty |
| Blockchain.GenesisInv | src/main/java/com/joybean/cryptocurrency/blockchain/BlockChain.java:15-28 | a chain built from a genesis block without a parent satisfies the index invariant |
| Blockchain.RejectionLeavesChain | src/main/java/com/joybean/cryptocurrency/blockchain/BlockChain.java:68-86 | the four rejection reasons in the source's order (no parent hash, unknown parent, too old, a transaction not accepted); a block is admitted iff none applies; a rejected block leaves index, tip and pool unchanged |
| Blockchain.DuplicateIsNoop | src/main/java/com/joybean/cryptocurrency/blockchain/BlockChain.java:68-97 | re-adding a stored block re-creates the same node, so the chain is unchanged |
| Blockchain.AddBlockKeepsInv | src/main/java/com/joybean/cryptocurrency/blockchain/BlockChain.java:68-97 | addBlock preserves the index invariant when hashes bind blocks |
| Blockchain.AcceptedBlockStored | src/main/java/com/joybean/cryptocurrency/blockchain/BlockChain.java:77-95 | on success the keys gain exactly the block's hash; the new entry sits one above its parent and holds the handler's pool plus the coinbase output; all other entries and the transaction pool are unchanged |
| Blockchain.TipMovesOnlyUp | src/main/java/com/joybean/cryptocurrency/blockchain/BlockChain.java:90-95 | the tip height never decreases; the tip changes iff the block is admitted strictly above the old tip, and it then becomes the new entry |
| Blockchain.FirstSeenWins | src/main/java/com/joybean/cryptocurrency/blockchain/BlockChain.java:90-95 | of two blocks reaching the same new maximum height, the first one added stays the tip |
| Blockchain.TipIsHighest | src/main/java/com/joybean/cryptocurrency/blockchain/BlockChain.java:90-95 | under the invariant the tip's height is the largest height in the index, and some stored node attains it |
| Blockchain.AddTransactionOnlyPool | src/main/java/com/joybean/cryptocurrency/blockchain/BlockChain.java:102-104 | addTransaction adds the transaction to the pool and changes neither index nor tip |
| Blockchain.RunKeepsInv | src/main/java/com/joybean/cryptocurrency/blockchain/BlockChain.java:68-104 | over any sequence of addBlock/addTransaction calls in which every added block's hash binds it, the invariant holds, no key is removed, the tip height never drops and the pool only grows |
| Blockchain.RejectedStaysRejected | src/main/java/com/joybean/cryptocurrency/blockchain/BlockChain.java:68-86 | offering a rejected block any number of times leaves the chain unchanged |
| Blockchain.UtxoPool.Empty | src/main/java/com/joybean/cryptocurrency/blockchain/BlockChain.java:21 | a new pool is empty |
| Blockchain.UtxoPool.Copy | src/main/java/com/joybean/cryptocurrency/blockchain/BlockChain.java:145 | the copy holds the same entries as the original |
| Blockchain.UtxoPool.AddUtxo | src/main/java/com/joybean/cryptocurrency/blockchain/BlockChain.java:32 | the pool gains or overwrites exactly one entry |
| Blockchain.Node.constructor | src/main/java/com/joybean/cryptocurrency/blockchain/BlockChain.java:122-126 | the node records the given block, height and pool |
| Blockchain.Node.GetUtxoPool | src/main/java/com/joybean/cryptocurrency/blockchain/BlockChain.java:144-146 | the caller gets a freshly allocated pool with the node's contents, never the node's own pool |
| Blockchain.BlockChain.PoolsNotShared | src/main/java/com/joybean/cryptocurrency/blockchain/BlockChain.java:82-95 | two stored nodes never share a pool object |
| Blockchain.BlockChain.constructor | src/main/java/com/joybean/cryptocurrency/blockchain/BlockChain.java:19-28 | the new index is the genesis chain, and it is sound when genesis names no parent |
| Blockchain.BlockChain.AddBlockToUtxoPool | src/main/java/com/joybean/cryptocurrency/blockchain/BlockChain.java:30-33 | the pool becomes the old pool with the coinbase output added |
| Blockchain.BlockChain.GetMaxHeightBlock | src/main/java/com/joybean/cryptocurrency/blockchain/BlockChain.java:38-40 | returns the tip's block; in a sound index no stored node is higher |
| Blockchain.BlockChain.GetMaxHeightUtxoPool | src/main/java/com/joybean/cryptocurrency/blockchain/BlockChain.java:45-47 | returns a fresh copy of the tip's pool |
| Blockchain.BlockChain.GetTransactionPool | src/main/java/com/joybean/cryptocurrency/blockchain/BlockChain.java:52-54 | returns the transaction pool |
| Blockchain.BlockChain.GetNode | src/main/java/com/joybean/cryptocurrency/blockchain/BlockChain.java:106-111 | finds a node iff a hash is given and stored, and then it is that hash's node |
| Blockchain.BlockChain.PutBlockNode | src/main/java/com/joybean/cryptocurrency/blockchain/BlockChain.java:113-115 | stores the node under its block's hash and changes nothing else |
| Blockchain.BlockChain.InstallNode | src/main/java/com/joybean/cryptocurrency/blockchain/BlockChain.java:90-95 | stores the admitted node and moves the tip only to a strictly higher node; the abstract chain follows AddBlockTo; the node's pool is the only one added to the owned pools |
| Blockchain.BlockChain.ExtendFrom | src/main/java/com/joybean/cryptocurrency/blockchain/BlockChain.java:82-96 | runs the handler on a copy of the parent's pool; succeeds iff the block is admitted, and then owns exactly one more, freshly allocated, pool; otherwise changes nothing, owned pools included |
| Blockchain.BlockChain.AddBlock | src/main/java/com/joybean/cryptocurrency/blockchain/BlockChain.java:68-97 | returns true iff the block is admitted; the new state is AddBlockTo of the old one; a rejected block changes no field and no owned pool; an accepted one adds only a freshly allocated pool, so a pool a caller already holds never enters the index; stored pools' contents never change; soundness is kept when hashes bind blocks |
| Blockchain.BlockChain.AddTransaction | src/main/java/com/joybean/cryptocurrency/blockchain/BlockChain.java:102-104 | adds the transaction to the pool; index, tip and owned pools are unchanged; soundness is kept |
| Consensus.TakenExactly | src/main/java/com/joybean/cryptocurrency/consensus/CompliantNode.java:46-50 | a transaction is taken iff some candidate carrying it has a followee sender, is honest and is not yet sent |
| Consensus.TakenStep | src/main/java/com/joybean/cryptocurrency/consensus/CompliantNode.java:46-50 | one more candidate adds its transaction exactly when it passes the filter |
| Consensus.SendMeaning | src/main/java/com/joybean/cryptocurrency/consensus/CompliantNode.java:34-43 | pending moves into sent and is emptied; before the final round the batch is returned and the counter advances; in the final round everything sent is returned and the counter stays |
| Consensus.ReceiveKeepsDisjoint | src/main/java/com/joybean/cryptocurrency/consensus/CompliantNode.java:45-51 | receiving keeps pending disjoint from sent and changes neither sent nor the round |
| Consensus.RoundCounterBounded | src/main/java/com/joybean/cryptocurrency/consensus/CompliantNode.java:38-41 | starting within [0, numRounds], the counter after k rounds is min(start + k, numRounds) |
| Consensus.RunGrowsSent | src/main/java/com/joybean/cryptocurrency/consensus/CompliantNode.java:34-37 | over any run, from any state, the sent set only grows, and a non-empty run absorbs the first pending set |
| Consensus.RunKeepsDisjoint | src/main/java/com/joybean/cryptocurrency/consensus/CompliantNode.java:34-51 | over any run that starts with pending disjoint from sent, pending stays disjoint from sent |
| Consensus.OutputsWereSent | src/main/java/com/joybean/cryptocurrency/consensus/CompliantNode.java:34-43 | from any state, everything handed to followers over a run is in the final sent set |
| Consensus.Registry.constructor | src/main/java/com/joybean/cryptocurrency/consensus/CompliantNode.java:15 | the shared honest set starts empty |
| Consensus.CompliantNode.constructor | src/main/java/com/joybean/cryptocurrency/consensus/CompliantNode.java:11-23 | the round counter starts at 0, nothing is sent, and the node uses the given registry |
| Consensus.CompliantNode.SetFollowees | src/main/java/com/joybean/cryptocurrency/consensus/CompliantNode.java:25-27 | sets the followee flags and changes nothing else |
| Consensus.CompliantNode.SetPendingTransaction | src/main/java/com/joybean/cryptocurrency/consensus/CompliantNode.java:29-32 | pending becomes the given set, which is added to the shared honest set |
| Consensus.CompliantNode.SendToFollowers | src/main/java/com/joybean/cryptocurrency/consensus/CompliantNode.java:34-43 | the new state and result are Send of the old state; pending is left empty and disjoint from sent; when numRounds >= 0 the counter stays within [0, numRounds] |
| Consensus.CompliantNode.ReceiveFromFollowees | src/main/java/com/joybean/cryptocurrency/consensus/CompliantNode.java:45-51 | pending gains exactly the filtered candidates, whatever the iteration order; sent, round, followees and the honest set are unchanged; disjointness is kept |

## Left out

- The transaction handler's checks (signatures, double spends, values) are not part of this model. The handler is a function parameter fixed at construction. Its only constraint is that it accepts only transactions it was given. The source builds a fresh handler on each call, which behaves the same if the handler is deterministic.
- Hash computation, the byte-array key wrapper and serialisation are not modelled. A hash is a byte sequence compared by value.
- Blockchain.BlockChain.AddBlock: index soundness is promised only when the block's hash binds it (`HashBindsBlock`). Without that, the source overwrites a stored node and the index can lose its links.
- Blockchain.BlockChain.GetMaxHeightBlock: the tip is shown to be the highest stored node only in a sound index.
- Blockchain.BlockChain.constructor: soundness is promised only for a genesis block without a parent hash, which the source assumes.
- Heights, the round counter and values are unbounded integers. Java's 32-bit `int` overflow is not modelled, neither for the height nor for `currentRound`, which keeps climbing (and would eventually wrap) when `numRounds` is negative. Output values (`double` in the source) are integers here.
- A coinbase transaction always has an output 0 (the subset type `Coinbase`). The source would throw on a coinbase without outputs.
- Pruning of old nodes is not modelled, because the code never removes an entry. The genesis node is put into the map twice with the same key and value, which is modelled as one insertion.
- The `Node` setters are never called, so the node's fields are constants.
- The transaction pool is a set value. The source hands out its live `TransactionPool` object; that aliasing, and the pool's own class, are not modelled.
- In the source, `followees` and the pending set are null until set. The model starts them empty, so calls made before the setters do not fail here.
- Consensus.CompliantNode.ReceiveFromFollowees requires every sender to be an index into the followee flags. The source would throw an out-of-bounds exception otherwise.
- Aliasing between the node and its caller is not modelled. The source keeps the caller's pending set, returns its live sent set in the final round, and adds to that shared pending set. The model copies values.
- The unused probability fields of `CompliantNode`, the malicious nodes, the simulator and the common node interface are not part of this model. Network-wide convergence depends on the simulator and the graph, so it is left out as well.
