/**
 * The `Blockchain` ledger: an append-only chain of blocks and a buffer of
 * pending transactions. `LedgerState` and the functions over it give the
 * meaning of each operation on values; the class `Blockchain` holds the two
 * fields that the source updates in place, and each of its methods is proved
 * to act as the corresponding function. Wall-clock time (`time()`) is the
 * parameter `now` of the operations that seal a block.
 */
module Ledger {
  import opened Records
  import opened Puzzle

  const GenesisProof: int := 100
  const GenesisPreviousHash: PrevHash := IntHash(1)

  datatype LedgerState = LedgerState(chain: seq<Block>, pending: seq<Transaction>)

  /** `new_block(proof, previous_hash)`: seal the whole pending buffer into the next block. */
  function Seal(s: LedgerState, proof: int, previousHash: PrevHash, now: real): (r: LedgerState) {
    LedgerState(s.chain + [Block(|s.chain| + 1, now, s.pending, proof, previousHash)], [])
  }

  /** `new_transaction(sender, recipient, amount)` on the state. */
  function Submit(s: LedgerState, sender: string, recipient: string, amount: int): (r: LedgerState) {
    LedgerState(s.chain, s.pending + [Transaction(sender, recipient, amount)])
  }

  /** The state `__init__` leaves: the genesis block sealed into an empty ledger. */
  function Genesis(now: real): (r: LedgerState) {
    Seal(LedgerState([], []), GenesisProof, GenesisPreviousHash, now)
  }

  /** `last_block`, which fails on an empty chain. */
  function Last(s: LedgerState): (b: Block)
    requires s.chain != []
  {
    s.chain[|s.chain| - 1]
  }

  /** The value `new_transaction` returns after appending. */
  function NextIndex(s: LedgerState): (index: int)
    requires s.chain != []
  {
    Last(s).index + 1
  }

  ghost predicate IsGenesisBlock(b: Block) {
    b.index == 1 && b.transactions == [] && b.proof == GenesisProof && b.previousHash == GenesisPreviousHash
  }

  /** Every block's index is its position plus one. */
  ghost predicate Indexed(chain: seq<Block>) {
    forall i :: 0 <= i < |chain| ==> chain[i].index == i + 1
  }

  /** The invariant of every reachable ledger. */
  ghost predicate ValidState(s: LedgerState) {
    |s.chain| >= 1 && IsGenesisBlock(s.chain[0]) && Indexed(s.chain)
  }

  /** `next` names the hash of `prev` and solves the puzzle for `prev`'s proof. */
  ghost predicate Links(sha256: string -> string, dumps: Json -> string, prev: Block, next: Block) {
    && next.previousHash == HexHash(Hash(sha256, dumps, prev))
    && ValidProof(sha256, prev.proof, next.proof)
  }

  /**
   * What honest callers would maintain but the ledger never checks: each
   * block after the first names the hash of its predecessor and carries a
   * proof that solves the puzzle for its predecessor's proof.
   */
  ghost predicate Honest(sha256: string -> string, dumps: Json -> string, chain: seq<Block>) {
    forall i :: 1 <= i < |chain| ==> Links(sha256, dumps, chain[i - 1], chain[i])
  }

  /** All transactions sealed into `chain`, block after block. */
  function Sealed(chain: seq<Block>): (ts: seq<Transaction>)
    decreases |chain|
  {
    if chain == [] then [] else Sealed(chain[..|chain| - 1]) + chain[|chain| - 1].transactions
  }

  // ---- Single operations ----

  lemma GenesisFacts(now: real)
    ensures |Genesis(now).chain| == 1
    ensures Genesis(now).chain[0] == Block(1, now, [], 100, IntHash(1))
    ensures Genesis(now).pending == []
    ensures ValidState(Genesis(now))
  {
  }

  lemma SealFacts(s: LedgerState, proof: int, previousHash: PrevHash, now: real)
    ensures var r := Seal(s, proof, previousHash, now);
      && |r.chain| == |s.chain| + 1
      && r.chain[..|s.chain|] == s.chain
      && Last(r) == Block(|s.chain| + 1, now, s.pending, proof, previousHash)
      && r.pending == []
      && Sealed(r.chain) == Sealed(s.chain) + s.pending
      && (ValidState(s) ==> ValidState(r))
  {
  }

  lemma SubmitFacts(s: LedgerState, sender: string, recipient: string, amount: int)
    ensures var r := Submit(s, sender, recipient, amount);
      && r.chain == s.chain
      && r.pending == s.pending + [Transaction(sender, recipient, amount)]
      && (ValidState(s) ==> ValidState(r) && NextIndex(r) == |r.chain| + 1)
  {
  }

  /** A chain with one more block is honest exactly when the chain is and the new block links to its last. */
  lemma HonestAppend(sha256: string -> string, dumps: Json -> string, c: seq<Block>, b: Block)
    requires c != []
    ensures Honest(sha256, dumps, c + [b]) <==> Honest(sha256, dumps, c) && Links(sha256, dumps, c[|c| - 1], b)
  {
    var d := c + [b];
    if Honest(sha256, dumps, d) {
      forall i | 1 <= i < |c| ensures Links(sha256, dumps, c[i - 1], c[i]) {
        assert d[i - 1] == c[i - 1] && d[i] == c[i];
      }
      assert d[|c| - 1] == c[|c| - 1] && d[|c|] == b;
    }
  }

  /**
   * Sealing keeps a chain honest exactly when the caller passes the hash of
   * the last block and a proof valid for the last block's proof;
   * `new_block` itself checks neither.
   */
  lemma SealHonestIff(sha256: string -> string, dumps: Json -> string, s: LedgerState,
                      proof: int, previousHash: PrevHash, now: real)
    requires s.chain != []
    ensures Honest(sha256, dumps, Seal(s, proof, previousHash, now).chain) <==>
      && Honest(sha256, dumps, s.chain)
      && previousHash == HexHash(Hash(sha256, dumps, Last(s)))
      && ValidProof(sha256, Last(s).proof, proof)
  {
    HonestAppend(sha256, dumps, s.chain, Block(|s.chain| + 1, now, s.pending, proof, previousHash));
  }

  // ---- Runs of operations ----

  datatype Op =
    | SubmitOp(sender: string, recipient: string, amount: int)
    | SealOp(proof: int, previousHash: PrevHash, now: real)

  function Step(s: LedgerState, op: Op): (r: LedgerState) {
    match op
    case SubmitOp(sender, recipient, amount) => Submit(s, sender, recipient, amount)
    case SealOp(proof, previousHash, now) => Seal(s, proof, previousHash, now)
  }

  function Run(s: LedgerState, ops: seq<Op>): (r: LedgerState)
    decreases |ops|
  {
    if ops == [] then s else Run(Step(s, ops[0]), ops[1..])
  }

  /** The transactions the `SubmitOp` operations of `ops` submit, in order. */
  function Submitted(ops: seq<Op>): seq<Transaction>
    decreases |ops|
  {
    if ops == [] then []
    else match ops[0]
      case SubmitOp(sender, recipient, amount) => [Transaction(sender, recipient, amount)] + Submitted(ops[1..])
      case SealOp(_, _, _) => Submitted(ops[1..])
  }

  /** Runs in which every sealed block names its predecessor's hash and solves its predecessor's puzzle. */
  ghost predicate HonestRun(sha256: string -> string, dumps: Json -> string, s: LedgerState, ops: seq<Op>)
    decreases |ops|
  {
    ops == [] ||
    (&& (ops[0].SealOp? ==>
          && s.chain != []
          && ops[0].previousHash == HexHash(Hash(sha256, dumps, Last(s)))
          && ValidProof(sha256, Last(s).proof, ops[0].proof))
     && HonestRun(sha256, dumps, Step(s, ops[0]), ops[1..]))
  }

  lemma StepFacts(s: LedgerState, op: Op)
    ensures var r := Step(s, op);
      && |s.chain| <= |r.chain|
      && r.chain[..|s.chain|] == s.chain
      && Sealed(r.chain) + r.pending == Sealed(s.chain) + s.pending + Submitted([op])
      && (ValidState(s) ==> ValidState(r))
  {
  }

  /** Every state reached from a valid state is valid: index = position + 1 and the genesis block stays. */
  lemma {:induction false} RunPreservesValid(s: LedgerState, ops: seq<Op>)
    requires ValidState(s)
    ensures ValidState(Run(s, ops))
    ensures Run(s, ops).chain[0] == s.chain[0]
    decreases |ops|
  {
    if ops != [] {
      StepFacts(s, ops[0]);
      RunPreservesValid(Step(s, ops[0]), ops[1..]);
    }
    RunKeepsEarlierBlocks(s, ops);
    assert Run(s, ops).chain[0] == Run(s, ops).chain[..|s.chain|][0];
  }

  /** Blocks are only ever appended: the old chain is a prefix of every later chain. */
  lemma {:induction false} RunKeepsEarlierBlocks(s: LedgerState, ops: seq<Op>)
    ensures |s.chain| <= |Run(s, ops).chain|
    ensures Run(s, ops).chain[..|s.chain|] == s.chain
    decreases |ops|
  {
    if ops != [] {
      var t := Step(s, ops[0]);
      StepFacts(s, ops[0]);
      RunKeepsEarlierBlocks(t, ops[1..]);
      var c := Run(s, ops).chain;
      assert c[..|s.chain|] == c[..|t.chain|][..|s.chain|];
    }
  }

  /**
   * No transaction is lost, duplicated or reordered: the sealed transactions
   * followed by the pending ones grow by exactly the submitted ones.
   */
  lemma {:induction false} RunConservesTransactions(s: LedgerState, ops: seq<Op>)
    ensures Sealed(Run(s, ops).chain) + Run(s, ops).pending == Sealed(s.chain) + s.pending + Submitted(ops)
    decreases |ops|
  {
    if ops != [] {
      StepFacts(s, ops[0]);
      RunConservesTransactions(Step(s, ops[0]), ops[1..]);
      assert Submitted(ops) == Submitted([ops[0]]) + Submitted(ops[1..]);
    }
  }

  /** A run of honest callers keeps the hash links and the proof relation of the chain. */
  lemma {:induction false} HonestRunKeepsHonest(sha256: string -> string, dumps: Json -> string,
                                                 s: LedgerState, ops: seq<Op>)
    requires Honest(sha256, dumps, s.chain)
    requires HonestRun(sha256, dumps, s, ops)
    ensures Honest(sha256, dumps, Run(s, ops).chain)
    decreases |ops|
  {
    if ops != [] {
      if ops[0].SealOp? {
        SealHonestIff(sha256, dumps, s, ops[0].proof, ops[0].previousHash, ops[0].now);
      }
      HonestRunKeepsHonest(sha256, dumps, Step(s, ops[0]), ops[1..]);
    }
  }

  /** Every ledger built from `__init__` by any calls is valid and keeps every transaction submitted, in order. */
  lemma ReachableFacts(now: real, ops: seq<Op>)
    ensures ValidState(Run(Genesis(now), ops))
    ensures Sealed(Run(Genesis(now), ops).chain) + Run(Genesis(now), ops).pending == Submitted(ops)
  {
    RunPreservesValid(Genesis(now), ops);
    RunConservesTransactions(Genesis(now), ops);
    assert Sealed(Genesis(now).chain) == [] by {
      assert Genesis(now).chain[..0] == [];
    }
  }

  /**
   * A first mined block: after construction and one
   * transaction from "A" to "B" of 5, the next index is 2; sealing with the
   * least witness for proof 100 and the genesis hash gives an honest chain
   * whose block 2 holds just that transaction.
   */
  lemma FirstBlockScenario(sha256: string -> string, dumps: Json -> string, t0: real, t1: real, p: int)
    requires IsLeastWitness(sha256, 100, p)
    ensures var s1 := Submit(Genesis(t0), "A", "B", 5);
      var s2 := Seal(s1, p, HexHash(Hash(sha256, dumps, Genesis(t0).chain[0])), t1);
      && NextIndex(s1) == 2
      && Last(s2).index == 2
      && Last(s2).transactions == [Transaction("A", "B", 5)]
      && s2.pending == []
      && Honest(sha256, dumps, s2.chain)
  {
  }

  // ---- The object ----

  class Blockchain {
    var chain: seq<Block>
    var currentTransactions: seq<Transaction>

    function Snapshot(): LedgerState
      reads this
    {
      LedgerState(chain, currentTransactions)
    }

    ghost predicate Valid()
      reads this
    {
      ValidState(Snapshot())
    }

    /** `__init__`: an empty chain and buffer, then the genesis block from `new_block`. */
    constructor (now: real)
      ensures Snapshot() == Genesis(now)
      ensures chain == [Block(1, now, [], GenesisProof, GenesisPreviousHash)] && currentTransactions == []
      ensures Valid()
    {
      chain := [];
      currentTransactions := [];
      new;
      var genesis := NewBlock(GenesisProof, now, GenesisPreviousHash);
      GenesisFacts(now);
    }

    /** `last_block`. */
    function LastBlock(): (b: Block)
      reads this
      requires chain != []
      ensures b == Last(Snapshot())
      ensures Valid() ==> b.index == |chain|
    {
      chain[|chain| - 1]
    }

    /** `new_block(proof, previous_hash = None)`: an omitted `previous_hash` is stored as `NoHash`. */
    method NewBlock(proof: int, now: real, previousHash: PrevHash := NoHash) returns (block: Block)
      modifies this
      ensures Snapshot() == Seal(old(Snapshot()), proof, previousHash, now)
      ensures block == Block(|old(chain)| + 1, now, old(currentTransactions), proof, previousHash)
      ensures chain == old(chain) + [block] && currentTransactions == []
      ensures block == LastBlock()
      ensures old(Valid()) ==> Valid()
    {
      block := Block(|chain| + 1, now, currentTransactions, proof, previousHash);
      currentTransactions := [];
      chain := chain + [block];
    }

    /** `new_transaction(sender, recipient, amount)`: returns the index of the block that will hold it. */
    method NewTransaction(sender: string, recipient: string, amount: int) returns (index: int)
      requires chain != []
      modifies this
      ensures Snapshot() == Submit(old(Snapshot()), sender, recipient, amount)
      ensures chain == old(chain)
      ensures currentTransactions == old(currentTransactions) + [Transaction(sender, recipient, amount)]
      ensures index == old(LastBlock()).index + 1
      ensures old(Valid()) ==> Valid() && index == |chain| + 1
    {
      currentTransactions := currentTransactions + [Transaction(sender, recipient, amount)];
      index := LastBlock().index + 1;
    }

    /**
     * `proof_of_work(last_proof)`: counts up from 0 to the first valid proof.
     * The source loops forever when there is none; the model is called only
     * when some witness exists, and that witness bounds the search.
     */
    method ProofOfWork(sha256: string -> string, lastProof: int) returns (proof: int)
      requires exists w: nat :: ValidProof(sha256, lastProof, w)
      ensures IsLeastWitness(sha256, lastProof, proof)
    {
      ghost var w: nat :| ValidProof(sha256, lastProof, w);
      proof := 0;
      while !ValidProof(sha256, lastProof, proof)
        invariant 0 <= proof <= w
        invariant forall q :: 0 <= q < proof ==> !ValidProof(sha256, lastProof, q)
        decreases w - proof
      {
        proof := proof + 1;
      }
    }
  }
}
