/**
 A block index with first-seen-wins fork choice.

 The index maps a block hash to the node recording that block, its height
 and the unspent-output pool after the block. New blocks are validated
 against their parent's pool by an external transaction handler, accepted
 all-or-nothing, and the tip moves only to a strictly higher node.
 */
module Blockchain {

  datatype Option<T> = None | Some(value: T)

  datatype Result<T, E> = Ok(value: T) | Err(error: E)

  /** A content digest used as a map key; equality is value equality. */
  type Hash = seq<bv8>

  datatype Output = Output(value: int, address: seq<bv8>)

  datatype Input = Input(prevTxHash: Hash, outputIndex: int, signature: seq<bv8>)

  datatype Transaction = Transaction(hash: Hash, inputs: seq<Input>, outputs: seq<Output>)

  /** A coinbase transaction always has the output the block pays its miner. */
  type Coinbase = t: Transaction | |t.outputs| > 0
    witness Transaction([], [], [Output(0, [])])

  datatype Block = Block(hash: Hash, prevBlockHash: Option<Hash>, coinbase: Coinbase, txs: seq<Transaction>)

  datatype UTXO = UTXO(txHash: Hash, index: int)

  type UtxoMap = map<UTXO, Output>

  /** What the external transaction handler reports: the transactions it accepted and the pool after them. */
  datatype Handled = Handled(accepted: seq<Transaction>, utxos: UtxoMap)

  /** The handler only ever accepts transactions it was given. */
  ghost predicate AcceptsOnlyGiven(f: (UtxoMap, seq<Transaction>) -> Handled)
  {
    forall p, txs, i :: 0 <= i < |f(p, txs).accepted| ==> f(p, txs).accepted[i] in txs
  }

  /** The external transaction handler, seen as a function of the pool it starts from and the block's transactions. */
  type TxHandler = f: (UtxoMap, seq<Transaction>) -> Handled | AcceptsOnlyGiven(f)
    witness (p: UtxoMap, txs: seq<Transaction>) => Handled(txs, p)

  const CUT_OFF_AGE: int := 10

  /** The output that a block's coinbase adds to the pool: output 0 of the coinbase transaction. */
  function CoinbaseUtxo(b: Block): UTXO
  {
    UTXO(b.coinbase.hash, 0)
  }

  function CoinbaseOutput(b: Block): Output
  {
    b.coinbase.outputs[0]
  }

  /** The pool a block leaves behind: the handler's pool with the block's coinbase output added. */
  function WithCoinbase(utxos: UtxoMap, b: Block): (r: UtxoMap)
    ensures r.Keys == utxos.Keys + {CoinbaseUtxo(b)}
    ensures r[CoinbaseUtxo(b)] == CoinbaseOutput(b)
    ensures forall u :: u in utxos && u != CoinbaseUtxo(b) ==> r[u] == utxos[u]
  {
    utxos[CoinbaseUtxo(b) := CoinbaseOutput(b)]
  }

  // ---------------------------------------------------------------------
  // Abstract value of the index
  // ---------------------------------------------------------------------

  /** What a node records: the block, its height and the pool after it. */
  datatype Entry = Entry(block: Block, height: int, utxos: UtxoMap)

  datatype Chain = Chain(index: map<Hash, Entry>, tip: Entry, txPool: set<Transaction>)

  datatype Rejection = NoPrevHash | UnknownParent | TooOld | InvalidTxs

  /** The chain right after construction from a genesis block. */
  function GenesisChain(genesis: Block): (c: Chain)
    ensures c.index.Keys == {genesis.hash}
    ensures c.tip == c.index[genesis.hash] && c.tip.block == genesis && c.tip.height == 0
    ensures c.tip.utxos.Keys == {CoinbaseUtxo(genesis)}
    ensures c.tip.utxos[CoinbaseUtxo(genesis)] == CoinbaseOutput(genesis)
    ensures c.txPool == {}
  {
    var root := Entry(genesis, 0, WithCoinbase(map[], genesis));
    Chain(map[genesis.hash := root], root, {})
  }

  /** The decision addBlock takes: the node to insert, or why the block is rejected. */
  function Admit(c: Chain, b: Block, handle: TxHandler): Result<Entry, Rejection>
  {
    if b.prevBlockHash.None? then Err(NoPrevHash)
    else if b.prevBlockHash.value !in c.index then Err(UnknownParent)
    else
      var parent := c.index[b.prevBlockHash.value];
      var newHeight := parent.height + 1;
      if newHeight <= c.tip.height - CUT_OFF_AGE then Err(TooOld)
      else
        var handled := handle(parent.utxos, b.txs);
        if |handled.accepted| != |b.txs| then Err(InvalidTxs)
        else Ok(Entry(b, newHeight, WithCoinbase(handled.utxos, b)))
  }

  /** The chain after addBlock: the admitted node is stored under the block's hash; the tip moves only upwards. */
  function AddBlockTo(c: Chain, b: Block, handle: TxHandler): Chain
  {
    match Admit(c, b, handle)
    case Err(_) => c
    case Ok(e) => Chain(c.index[b.hash := e], if e.height > c.tip.height then e else c.tip, c.txPool)
  }

  function AddTransactionTo(c: Chain, tx: Transaction): Chain
  {
    c.(txPool := c.txPool + {tx})
  }

  /** A stored node whose block has a parent hash points at a stored parent one lower, and its pool is the parent's pool after the block. */
  ghost predicate Linked(index: map<Hash, Entry>, e: Entry, handle: TxHandler)
  {
    match e.block.prevBlockHash
    case None => e.height == 0 && e.utxos == WithCoinbase(map[], e.block)
    case Some(p) =>
      && p in index
      && e.height == index[p].height + 1
      && |handle(index[p].utxos, e.block.txs).accepted| == |e.block.txs|
      && e.utxos == WithCoinbase(handle(index[p].utxos, e.block.txs).utxos, e.block)
  }

  /** The node stored under `h` is keyed by its block's hash, linked to its parent, and no higher than `top`. */
  ghost predicate StoredOk(index: map<Hash, Entry>, top: int, h: Hash, handle: TxHandler)
  {
    && h in index
    && index[h].block.hash == h
    && Linked(index, index[h], handle)
    && 0 <= index[h].height <= top
  }

  /** The index invariant: every stored node is sound, and the tip is a stored node (so of maximum height). */
  ghost predicate Inv(c: Chain, handle: TxHandler)
  {
    && (forall h {:trigger StoredOk(c.index, c.tip.height, h, handle)} :: h in c.index ==> StoredOk(c.index, c.tip.height, h, handle))
    && c.tip.block.hash in c.index
    && c.index[c.tip.block.hash] == c.tip
  }

  /** Block hashes are digests of the block: a stored block with the same hash is the same block. */
  ghost predicate HashBindsBlock(c: Chain, b: Block)
  {
    b.hash in c.index ==> c.index[b.hash].block == b
  }

  // ---------------------------------------------------------------------
  // Properties of the abstract operations
  // ---------------------------------------------------------------------

  lemma GenesisInv(genesis: Block, handle: TxHandler)
    requires genesis.prevBlockHash.None?
    ensures Inv(GenesisChain(genesis), handle)
  {
  }

  /** A block is admitted exactly when it names a stored parent, is not too far below the tip and all its transactions are accepted; the reasons are tried in that order, and a rejected block leaves index, tip and pool as they were. */
  lemma RejectionLeavesChain(c: Chain, b: Block, handle: TxHandler)
    ensures b.prevBlockHash.None? ==> Admit(c, b, handle) == Err(NoPrevHash)
    ensures b.prevBlockHash.Some? && b.prevBlockHash.value !in c.index ==> Admit(c, b, handle) == Err(UnknownParent)
    ensures b.prevBlockHash.Some? && b.prevBlockHash.value in c.index
            && c.index[b.prevBlockHash.value].height + 1 <= c.tip.height - CUT_OFF_AGE
            ==> Admit(c, b, handle) == Err(TooOld)
    ensures b.prevBlockHash.Some? && b.prevBlockHash.value in c.index
            && c.index[b.prevBlockHash.value].height + 1 > c.tip.height - CUT_OFF_AGE
            && |handle(c.index[b.prevBlockHash.value].utxos, b.txs).accepted| != |b.txs|
            ==> Admit(c, b, handle) == Err(InvalidTxs)
    ensures Admit(c, b, handle).Ok? <==>
            && b.prevBlockHash.Some? && b.prevBlockHash.value in c.index
            && c.index[b.prevBlockHash.value].height + 1 > c.tip.height - CUT_OFF_AGE
            && |handle(c.index[b.prevBlockHash.value].utxos, b.txs).accepted| == |b.txs|
    ensures Admit(c, b, handle).Err? ==> AddBlockTo(c, b, handle) == c
  {
  }

  /** Adding a stored block again changes nothing. */
  lemma {:induction false} DuplicateIsNoop(c: Chain, b: Block, handle: TxHandler)
    requires Inv(c, handle)
    requires b.hash in c.index && c.index[b.hash].block == b
    ensures Admit(c, b, handle).Ok? ==> Admit(c, b, handle).value == c.index[b.hash]
    ensures AddBlockTo(c, b, handle) == c
  {
    var stored := c.index[b.hash];
    assert StoredOk(c.index, c.tip.height, b.hash, handle);
    if Admit(c, b, handle).Ok? {
      var e := Admit(c, b, handle).value;
      assert e == stored;
      assert c.index[b.hash := e] == c.index;
    }
  }

  /** addBlock keeps the index invariant. */
  lemma {:induction false} AddBlockKeepsInv(c: Chain, b: Block, handle: TxHandler)
    requires Inv(c, handle) && HashBindsBlock(c, b)
    ensures Inv(AddBlockTo(c, b, handle), handle)
  {
    if b.hash in c.index {
      DuplicateIsNoop(c, b, handle);
    } else if Admit(c, b, handle).Ok? {
      var e := Admit(c, b, handle).value;
      var c' := AddBlockTo(c, b, handle);
      assert c'.index == c.index[b.hash := e];
      assert StoredOk(c.index, c.tip.height, b.prevBlockHash.value, handle);
      forall h | h in c'.index
        ensures StoredOk(c'.index, c'.tip.height, h, handle)
      {
        if h != b.hash {
          assert StoredOk(c.index, c.tip.height, h, handle);
          var pb := c.index[h].block.prevBlockHash;
          if pb.Some? {
            assert pb.value in c.index;
            assert pb.value != b.hash;
          }
        }
      }
    }
  }

  /** On success the map gains exactly the block's hash, the new node sits one above its parent, and other nodes are untouched. */
  lemma AcceptedBlockStored(c: Chain, b: Block, handle: TxHandler)
    requires Admit(c, b, handle).Ok?
    ensures var c' := AddBlockTo(c, b, handle);
      && c'.index.Keys == c.index.Keys + {b.hash}
      && c'.index[b.hash].block == b
      && c'.index[b.hash].height == c.index[b.prevBlockHash.value].height + 1
      && c'.index[b.hash].utxos
         == WithCoinbase(handle(c.index[b.prevBlockHash.value].utxos, b.txs).utxos, b)
      && (forall h :: h in c.index && h != b.hash ==> c'.index[h] == c.index[h])
      && c'.txPool == c.txPool
  {
  }

  /** The tip moves to the new node exactly when the new node is strictly higher; otherwise it stays. */
  lemma TipMovesOnlyUp(c: Chain, b: Block, handle: TxHandler)
    ensures var c' := AddBlockTo(c, b, handle);
      && c'.tip.height >= c.tip.height
      && (c'.tip != c.tip <==> Admit(c, b, handle).Ok? && Admit(c, b, handle).value.height > c.tip.height)
      && (c'.tip != c.tip ==> c'.tip == c'.index[b.hash])
  {
  }

  /** Fork choice: of two blocks arriving at the same new height, the first one stays the tip. */
  lemma FirstSeenWins(c: Chain, b1: Block, b2: Block, handle: TxHandler)
    requires Inv(c, handle) && b1.hash !in c.index && b1.hash != b2.hash
    requires Admit(c, b1, handle).Ok? && Admit(c, b1, handle).value.height > c.tip.height
    requires b2.prevBlockHash.Some? && b2.prevBlockHash.value in c.index
    requires c.index[b2.prevBlockHash.value].height + 1 == Admit(c, b1, handle).value.height
    ensures AddBlockTo(AddBlockTo(c, b1, handle), b2, handle).tip.block == b1
  {
  }

  /** Under the invariant the tip's height is the largest height stored. */
  lemma TipIsHighest(c: Chain, handle: TxHandler)
    requires Inv(c, handle)
    ensures exists h :: h in c.index && c.index[h].height == c.tip.height
    ensures forall h :: h in c.index ==> c.index[h].height <= c.tip.height
  {
    assert c.index[c.tip.block.hash].height == c.tip.height;
    forall h | h in c.index
      ensures c.index[h].height <= c.tip.height
    {
      assert StoredOk(c.index, c.tip.height, h, handle);
    }
  }

  /** addTransaction only grows the transaction pool. */
  lemma AddTransactionOnlyPool(c: Chain, tx: Transaction)
    ensures AddTransactionTo(c, tx).index == c.index && AddTransactionTo(c, tx).tip == c.tip
    ensures AddTransactionTo(c, tx).txPool == c.txPool + {tx}
  {
  }

  // ---------------------------------------------------------------------
  // Sequences of calls
  // ---------------------------------------------------------------------

  datatype Call = AddBlockCall(block: Block) | AddTransactionCall(tx: Transaction)

  function Apply(c: Chain, call: Call, handle: TxHandler): Chain
  {
    match call
    case AddBlockCall(b) => AddBlockTo(c, b, handle)
    case AddTransactionCall(tx) => AddTransactionTo(c, tx)
  }

  function Run(c: Chain, calls: seq<Call>, handle: TxHandler): Chain
    decreases |calls|
  {
    if calls == [] then c else Run(Apply(c, calls[0], handle), calls[1..], handle)
  }

  /** Every added block is bound to its hash at the time it is added. */
  ghost predicate HashesBind(c: Chain, calls: seq<Call>, handle: TxHandler)
    decreases |calls|
  {
    calls != [] ==>
      && (calls[0].AddBlockCall? ==> HashBindsBlock(c, calls[0].block))
      && HashesBind(Apply(c, calls[0], handle), calls[1..], handle)
  }

  /** Over any sequence of calls the invariant holds, no key is ever removed, the tip never drops and the pool only grows. */
  lemma {:induction false} RunKeepsInv(c: Chain, calls: seq<Call>, handle: TxHandler)
    requires Inv(c, handle) && HashesBind(c, calls, handle)
    ensures Inv(Run(c, calls, handle), handle)
    ensures c.index.Keys <= Run(c, calls, handle).index.Keys
    ensures c.tip.height <= Run(c, calls, handle).tip.height
    ensures c.txPool <= Run(c, calls, handle).txPool
    decreases |calls|
  {
    if calls != [] {
      var c1 := Apply(c, calls[0], handle);
      if calls[0].AddBlockCall? {
        AddBlockKeepsInv(c, calls[0].block, handle);
        TipMovesOnlyUp(c, calls[0].block, handle);
      }
      RunKeepsInv(c1, calls[1..], handle);
    }
  }

  /** Rejection is idempotent: offering the same rejected block any number of times leaves the chain as it was. */
  lemma {:induction false} RejectedStaysRejected(c: Chain, b: Block, n: nat, handle: TxHandler)
    requires Admit(c, b, handle).Err?
    ensures Run(c, seq(n, _ => AddBlockCall(b)), handle) == c
    decreases n
  {
    if n > 0 {
      var calls := seq(n, _ => AddBlockCall(b));
      assert calls[1..] == seq(n - 1, _ => AddBlockCall(b));
      RejectedStaysRejected(c, b, n - 1, handle);
    }
  }

  // ---------------------------------------------------------------------
  // The imperative index
  // ---------------------------------------------------------------------

  /** A mutable pool of unspent outputs. */
  class UtxoPool {
    var utxos: UtxoMap

    constructor Empty()
      ensures utxos == map[]
    {
      utxos := map[];
    }

    constructor Copy(other: UtxoPool)
      ensures utxos == other.utxos
    {
      utxos := other.utxos;
    }

    method AddUtxo(u: UTXO, out: Output)
      modifies this
      ensures utxos == old(utxos)[u := out]
    {
      utxos := utxos[u := out];
    }
  }

  /** One stored block with its height and the pool it owns. */
  class Node {
    const block: Block
    const height: int
    const utxoPool: UtxoPool

    constructor(block: Block, height: int, utxoPool: UtxoPool)
      ensures this.block == block && this.height == height && this.utxoPool == utxoPool
    {
      this.block := block;
      this.height := height;
      this.utxoPool := utxoPool;
    }

    /** A defensive copy: the caller gets a fresh pool with the same contents. */
    method GetUtxoPool() returns (p: UtxoPool)
      ensures fresh(p) && p.utxos == utxoPool.utxos
    {
      p := new UtxoPool.Copy(utxoPool);
    }
  }

  ghost function EntryOf(n: Node): Entry
    reads n.utxoPool
  {
    Entry(n.block, n.height, n.utxoPool.utxos)
  }

  class BlockChain {
    var index: map<Hash, Node>
    var maxHeightNode: Node
    var transactionPool: set<Transaction>
    const handleTxs: TxHandler
    /** The abstract value of the index. */
    ghost var chain: Chain
    /** The pools the nodes use, and which stored node owns each of them. */
    ghost var Repr: set<UtxoPool>
    ghost var owner: map<UtxoPool, Hash>

    /** The node stored under `h` owns its pool and records what `chain` says it does. */
    ghost predicate Mirrors(h: Hash)
      reads this, Repr
    {
      && h in index && h in chain.index
      && index[h].utxoPool in Repr
      && index[h].utxoPool in owner && owner[index[h].utxoPool] == h
      && EntryOf(index[h]) == chain.index[h]
    }

    /** The nodes, the tip and the pool are what `chain` says they are. */
    ghost predicate Valid()
      reads this, Repr
    {
      && index.Keys == chain.index.Keys
      && (forall h {:trigger Mirrors(h)} :: h in index ==> Mirrors(h))
      && maxHeightNode.utxoPool in Repr
      && EntryOf(maxHeightNode) == chain.tip
      && transactionPool == chain.txPool
    }

    /** The index invariant holds of the abstract value. */
    ghost predicate Sound()
      reads this
    {
      Inv(chain, handleTxs)
    }

    /** Stored nodes never share a pool: each one owns its own. */
    lemma PoolsNotShared(h1: Hash, h2: Hash)
      requires Valid() && h1 in index && h2 in index && h1 != h2
      ensures index[h1].utxoPool != index[h2].utxoPool
    {
      assert Mirrors(h1) && Mirrors(h2);
    }

    /** Builds the chain holding just the genesis block; a valid genesis block names no parent. */
    constructor(genesis: Block, handleTxs: TxHandler)
      ensures Valid() && this.handleTxs == handleTxs
      ensures genesis.prevBlockHash.None? ==> Sound()
      ensures chain == GenesisChain(genesis)
      ensures fresh(Repr)
    {
      this.handleTxs := handleTxs;
      var utxoPool := new UtxoPool.Empty();
      AddBlockToUtxoPool(utxoPool, genesis);
      var root := new Node(genesis, 0, utxoPool);
      index := map[genesis.hash := root];
      maxHeightNode := root;
      transactionPool := {};
      chain := GenesisChain(genesis);
      Repr := {utxoPool};
      owner := map[utxoPool := genesis.hash];
      new;
      assert Mirrors(genesis.hash);
      if genesis.prevBlockHash.None? {
        GenesisInv(genesis, handleTxs);
      }
    }

    /** Adds the block's coinbase output (output 0 of the coinbase) to `utxoPool`. */
    static method AddBlockToUtxoPool(utxoPool: UtxoPool, block: Block)
      modifies utxoPool
      ensures utxoPool.utxos == WithCoinbase(old(utxoPool.utxos), block)
    {
      utxoPool.AddUtxo(UTXO(block.coinbase.hash, 0), block.coinbase.outputs[0]);
    }

    method GetMaxHeightBlock() returns (b: Block)
      requires Valid()
      ensures b == chain.tip.block
      ensures Sound() ==> forall h :: h in chain.index ==> chain.index[h].height <= chain.tip.height
    {
      b := maxHeightNode.block;
      if Sound() {
        TipIsHighest(chain, handleTxs);
      }
    }

    /** The pool to mine on: a fresh copy of the tip's pool, so that changing it cannot reach the index. */
    method GetMaxHeightUtxoPool() returns (p: UtxoPool)
      requires Valid()
      ensures fresh(p) && p.utxos == chain.tip.utxos
    {
      p := maxHeightNode.GetUtxoPool();
    }

    method GetTransactionPool() returns (pool: set<Transaction>)
      requires Valid()
      ensures pool == chain.txPool
    {
      pool := transactionPool;
    }

    /** Looks a node up by the hash a block names as its parent; no hash finds nothing. */
    function GetNode(hash: Option<Hash>): (n: Option<Node>)
      reads this
      ensures n.Some? <==> hash.Some? && hash.value in index
      ensures n.Some? ==> n.value == index[hash.value]
    {
      if hash.None? then None
      else if hash.value in index then Some(index[hash.value])
      else None
    }

    method PutBlockNode(node: Node)
      modifies this
      ensures index == old(index)[node.block.hash := node]
      ensures maxHeightNode == old(maxHeightNode) && transactionPool == old(transactionPool)
      ensures chain == old(chain) && Repr == old(Repr) && owner == old(owner)
    {
      index := index[node.block.hash := node];
    }

    /** Stores `newNode` under its block's hash and makes it the tip when it is strictly higher. */
    method InstallNode(newNode: Node)
      requires Valid()
      requires newNode.utxoPool !in Repr
      requires Admit(chain, newNode.block, handleTxs) == Ok(EntryOf(newNode))
      modifies this
      ensures Valid()
      ensures chain == AddBlockTo(old(chain), newNode.block, handleTxs)
      ensures index == old(index)[newNode.block.hash := newNode]
      ensures maxHeightNode == if newNode.height > old(maxHeightNode.height) then newNode else old(maxHeightNode)
      ensures transactionPool == old(transactionPool)
      ensures Repr == old(Repr) + {newNode.utxoPool} && owner == old(owner)[newNode.utxoPool := newNode.block.hash]
    {
      ghost var c := chain;
      var maxHeight := maxHeightNode.height;
      if newNode.height > maxHeight {
        maxHeightNode := newNode;
      }
      PutBlockNode(newNode);
      Repr := Repr + {newNode.utxoPool};
      owner := owner[newNode.utxoPool := newNode.block.hash];
      ghost var e := EntryOf(newNode);
      chain := AddBlockTo(c, newNode.block, handleTxs);
      assert chain.index == c.index[newNode.block.hash := e];
      forall h | h in index
        ensures Mirrors(h)
      {
        if h != newNode.block.hash {
          assert old(Mirrors(h));
          assert index[h] == old(index[h]);
          assert index[h].utxoPool in old(Repr);
        }
      }
    }

    /** Runs the handler on a copy of the parent's pool and, when it accepts every transaction, stores the new node. */
    method ExtendFrom(parent: Node, block: Block) returns (ok: bool)
      requires Valid()
      requires block.prevBlockHash.Some? && block.prevBlockHash.value in index
      requires index[block.prevBlockHash.value] == parent
      requires parent.height + 1 > maxHeightNode.height - CUT_OFF_AGE
      modifies this
      ensures Valid()
      ensures ok <==> Admit(old(chain), block, handleTxs).Ok?
      ensures chain == AddBlockTo(old(chain), block, handleTxs)
      ensures !ok ==> index == old(index) && maxHeightNode == old(maxHeightNode)
                      && transactionPool == old(transactionPool)
      ensures ok ==> block.hash in index && fresh(index[block.hash].utxoPool)
      ensures ok ==> Repr == old(Repr) + {index[block.hash].utxoPool}
      ensures !ok ==> Repr == old(Repr) && owner == old(owner)
      ensures fresh(Repr - old(Repr))
    {
      assert Mirrors(block.prevBlockHash.value);
      var newHeight := parent.height + 1;
      // The handler works on its own copy of the parent's pool.
      var utxoPool := parent.GetUtxoPool();
      var handled := handleTxs(utxoPool.utxos, block.txs);
      if |handled.accepted| != |block.txs| {
        return false;
      }
      utxoPool.utxos := handled.utxos;
      AddBlockToUtxoPool(utxoPool, block);
      var newNode := new Node(block, newHeight, utxoPool);
      InstallNode(newNode);
      ok := true;
    }

    /** Adds `block` if it is valid; a rejected block changes nothing. */
    method AddBlock(block: Block) returns (ok: bool)
      requires Valid()
      modifies this
      ensures Valid()
      ensures old(Sound()) && HashBindsBlock(old(chain), block) ==> Sound()
      ensures ok <==> Admit(old(chain), block, handleTxs).Ok?
      ensures chain == AddBlockTo(old(chain), block, handleTxs)
      ensures !ok ==> index == old(index) && maxHeightNode == old(maxHeightNode)
                      && transactionPool == old(transactionPool)
      ensures ok ==> block.hash in index && fresh(index[block.hash].utxoPool)
      ensures ok ==> Repr == old(Repr) + {index[block.hash].utxoPool}
      ensures !ok ==> Repr == old(Repr) && owner == old(owner)
      ensures fresh(Repr - old(Repr))
      ensures forall h :: h in old(index) ==> old(index[h].utxoPool.utxos) == old(index)[h].utxoPool.utxos
    {
      // The invariant is a property of the abstract value, settled before any state changes.
      if Sound() && HashBindsBlock(chain, block) {
        AddBlockKeepsInv(chain, block, handleTxs);
      }
      if block.prevBlockHash.None? {
        return false;
      }
      var preNode := GetNode(block.prevBlockHash);
      if preNode.None? {
        return false;
      }
      var parent := preNode.value;
      var newHeight := parent.height + 1;
      if newHeight <= maxHeightNode.height - CUT_OFF_AGE {
        assert Mirrors(block.prevBlockHash.value);
        return false;
      }
      ok := ExtendFrom(parent, block);
    }

    method AddTransaction(tx: Transaction)
      requires Valid()
      modifies this
      ensures Valid() && (old(Sound()) ==> Sound())
      ensures chain == AddTransactionTo(old(chain), tx)
      ensures index == old(index) && maxHeightNode == old(maxHeightNode)
      ensures Repr == old(Repr) && owner == old(owner)
    {
      transactionPool := transactionPool + {tx};
      chain := AddTransactionTo(chain, tx);
      forall h | h in index
        ensures Mirrors(h)
      {
        assert old(Mirrors(h));
      }
    }
  }
}
