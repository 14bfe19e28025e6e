/**
 * The records of the ledger: transactions and blocks, the JSON value a block
 * dictionary denotes, and the block hash `sha256(json.dumps(block,
 * sort_keys=True))`. The digest and the JSON writer are library calls and
 * enter the model as function parameters: `sha256` stands for "the SHA-256
 * hex digest of the UTF-8 encoding of a text", `dumps` for
 * `json.dumps(..., sort_keys=True)`.
 */
module Records {
  import opened Wrappers

  /** A pending or sealed transfer; the source does not validate any field. */
  datatype Transaction = Transaction(sender: string, recipient: string, amount: int)

  /**
   * What is stored under 'previous_hash': the keyword default `None`, the
   * integer sentinel `1` of the genesis block, or a hex digest string.
   */
  datatype PrevHash = NoHash | IntHash(n: int) | HexHash(digest: string)

  datatype Block = Block(
    index: int,
    timestamp: real,
    transactions: seq<Transaction>,
    proof: int,
    previousHash: PrevHash)

  /**
   * A JSON value. Objects are maps: a Python dict handed to
   * `json.dumps(..., sort_keys=True)` is written in key order, so its
   * insertion order does not reach the output.
   */
  datatype Json =
    | JNull
    | JInt(i: int)
    | JFloat(f: real)
    | JString(s: string)
    | JArray(items: seq<Json>)
    | JObject(members: map<string, Json>)

  function TransactionJson(t: Transaction): (j: Json) {
    JObject(map["sender" := JString(t.sender), "recipient" := JString(t.recipient), "amount" := JInt(t.amount)])
  }

  function TransactionsJson(ts: seq<Transaction>): (items: seq<Json>)
    ensures |items| == |ts|
    decreases |ts|
  {
    if ts == [] then [] else [TransactionJson(ts[0])] + TransactionsJson(ts[1..])
  }

  function PrevHashJson(h: PrevHash): Json {
    match h
    case NoHash => JNull
    case IntHash(n) => JInt(n)
    case HexHash(d) => JString(d)
  }

  /** The dictionary `new_block` builds, as a JSON value. */
  function BlockJson(b: Block): (j: Json) {
    JObject(map[
      "index" := JInt(b.index),
      "timestamp" := JFloat(b.timestamp),
      "transactions" := JArray(TransactionsJson(b.transactions)),
      "proof" := JInt(b.proof),
      "previous_hash" := PrevHashJson(b.previousHash)])
  }

  function TransactionFromJson(j: Json): Option<Transaction> {
    if j.JObject? && j.members.Keys == {"sender", "recipient", "amount"}
      && j.members["sender"].JString? && j.members["recipient"].JString? && j.members["amount"].JInt?
    then Some(Transaction(j.members["sender"].s, j.members["recipient"].s, j.members["amount"].i))
    else None
  }

  function TransactionsFromJson(items: seq<Json>): Option<seq<Transaction>>
    decreases |items|
  {
    if items == [] then Some([])
    else
      match (TransactionFromJson(items[0]), TransactionsFromJson(items[1..]))
      case (Some(t), Some(ts)) => Some([t] + ts)
      case _ => None
  }

  function PrevHashFromJson(j: Json): Option<PrevHash> {
    match j
    case JNull => Some(NoHash)
    case JInt(n) => Some(IntHash(n))
    case JString(d) => Some(HexHash(d))
    case _ => None
  }

  /** Reads a block back from the JSON value of its dictionary. */
  function BlockFromJson(j: Json): Option<Block> {
    if j.JObject? && j.members.Keys == {"index", "timestamp", "transactions", "proof", "previous_hash"}
      && j.members["index"].JInt? && j.members["timestamp"].JFloat? && j.members["transactions"].JArray?
      && j.members["proof"].JInt?
    then
      match (TransactionsFromJson(j.members["transactions"].items), PrevHashFromJson(j.members["previous_hash"]))
      case (Some(ts), Some(h)) =>
        Some(Block(j.members["index"].i, j.members["timestamp"].f, ts, j.members["proof"].i, h))
      case _ => None
    else None
  }

  /** `Blockchain.hash(block)`. */
  function Hash(sha256: string -> string, dumps: Json -> string, b: Block): (digest: string) {
    sha256(dumps(BlockJson(b)))
  }

  lemma TransactionRoundTrip(t: Transaction)
    ensures TransactionFromJson(TransactionJson(t)) == Some(t)
  {
  }

  lemma {:induction false} TransactionsRoundTrip(ts: seq<Transaction>)
    ensures TransactionsFromJson(TransactionsJson(ts)) == Some(ts)
    decreases |ts|
  {
    if ts != [] {
      TransactionRoundTrip(ts[0]);
      TransactionsRoundTrip(ts[1..]);
      assert TransactionsJson(ts)[1..] == TransactionsJson(ts[1..]);
      assert [ts[0]] + ts[1..] == ts;
    }
  }

  /** The JSON value of a block holds all of the block: it can be read back. */
  lemma BlockRoundTrip(b: Block)
    ensures BlockFromJson(BlockJson(b)) == Some(b)
  {
    var m := BlockJson(b).members;
    assert m.Keys == {"index", "timestamp", "transactions", "proof", "previous_hash"};
    TransactionsRoundTrip(b.transactions);
    assert PrevHashFromJson(PrevHashJson(b.previousHash)) == Some(b.previousHash) by {
      match b.previousHash
      case NoHash =>
      case IntHash(_) =>
      case HexHash(_) =>
    }
  }

  /**
   * Two blocks hash alike exactly when they are equal, provided neither the
   * writer nor the digest collides on these two blocks' texts: field order
   * and dictionary construction play no part, and no field is left out of
   * the hash.
   */
  lemma HashDeterminedByBlock(sha256: string -> string, dumps: Json -> string, a: Block, b: Block)
    requires dumps(BlockJson(a)) == dumps(BlockJson(b)) ==> BlockJson(a) == BlockJson(b)
    requires sha256(dumps(BlockJson(a))) == sha256(dumps(BlockJson(b))) ==> dumps(BlockJson(a)) == dumps(BlockJson(b))
    ensures Hash(sha256, dumps, a) == Hash(sha256, dumps, b) <==> a == b
  {
    if Hash(sha256, dumps, a) == Hash(sha256, dumps, b) {
      BlockRoundTrip(a);
      BlockRoundTrip(b);
    }
  }
}
