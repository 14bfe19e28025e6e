# Blockchain ledger — a Dafny model

This project models the `Blockchain` class of `blockchain.py`, a single-node
ledger prototype. The class keeps two pieces of state:

- `chain`, an append-only list of block records;
- `current_transactions`, the buffer of pending transfers.

It has these operations:

- `new_transaction` appends a transfer to the buffer.
- `new_block` seals the whole buffer into the next block, appends that block to the chain and empties the buffer.
- `proof_of_work` counts up from 0 to the first integer that `valid_proof` accepts.
- `valid_proof` hashes the decimal texts of the two proofs, joined with no separator, and asks whether the hex digest starts with `0000`.
- `hash` is the SHA-256 hex digest of `json.dumps(block, sort_keys=True)`.
- `last_block` is the last element of the chain.

Layout:

- `wrappers.dfy`: `Option`.
- `decimal.dfy` (`DecimalText`): decimal text of integers in the form Python's `str(int)` and an f-string write it, without the interpreter's digit limit (see "## Left out"). It comes with an independent reader, and the two are proved inverse.
- `records.dfy` (`Records`): `Transaction`, `Block` and the three kinds of `previous_hash` the code stores: `None`, the integer `1` of the genesis block, or a digest string. It also holds the JSON value of a block dictionary, a decoder for that value, and `Hash`.
- `puzzle.dfy` (`Puzzle`): the guess text, Python's `s[:4]`, `ValidProof`, and the "least witness" specification of the search.
- `ledger.dfy` (`Ledger`): the state machine on values, `LedgerState`, with `Seal`, `Submit` and `Genesis`. It also holds runs of operations and their invariants, and the class `Blockchain`. The class methods are proved to act on `chain` and `currentTransactions` exactly as those functions say.

SHA-256 and `json.dumps` are library calls. They enter the model as function parameters:

- `sha256: string -> string` is the hex digest of the UTF-8 encoding of a text.
- `dumps: Json -> string` is `json.dumps(..., sort_keys=True)`.

JSON objects are Dafny maps. A map has no insertion order, so key sorting adds nothing: which blocks hash alike depends only on the block's field values.

Two things the code does not do, which a reader might expect:

- `new_block` stores `previous_hash` as given, and its default is `None`. It never computes the hash of the last block itself. Chain linking and the proof relation between neighbouring blocks are therefore not invariants of the ledger. `Honest` states them, and `SealHonestIff` proves that a seal keeps them exactly when the caller supplies the right hash and a valid proof.
- `new_transaction` appends first and then reads `last_block`. It needs only a non-empty chain, and the constructor always provides one; `NewTransaction` requires just that.

## Model

| member | source | states |
|---|---|---|
| `DecimalText.NatText` | blockchain.py:73 | the text of a non-negative proof is a non-empty string of digits with no leading zero, and it is "0" exactly for 0 |
| `DecimalText.IntText` | blockchain.py:73 | the text of any integer is non-empty, starts with '-' exactly when the integer is negative, and is a canonical digit string exactly when it is not negative |
| `DecimalText.NatTextRoundTrip` | blockchain.py:73 | reading the digits of a natural number's text gives back the number |
| `DecimalText.ParseNatRoundTrip` | blockchain.py:73 | every canonical digit string is the text of the number it denotes |
| `DecimalText.IntTextRoundTrip` | blockchain.py:73 | every integer is read back from its text |
| `DecimalText.ReadIntRoundTrip` | blockchain.py:73 | every text the reader accepts is the text of the integer it reads |
| `DecimalText.IntTextInjective` | blockchain.py:73 | two integers have the same text exactly when they are equal |
| `Puzzle.SlicePrefix` | blockchain.py:75 | Python's `s[:k]` is the prefix of `s` of length min(len(s), k) |
| `Puzzle.ValidProofMeaning` | blockchain.py:65-75 | a proof is valid exactly when the digest of the joined texts has at least four characters and the first four are '0' |
| `Puzzle.GuessInjectiveInProof` | blockchain.py:73 | for a fixed last proof, two candidates give the same hashed text exactly when they are equal |
| `Puzzle.GuessAmbiguous` | blockchain.py:73 | with no separator, (1, 23) and (12, 3) are both hashed as "123", so one is valid exactly when the other is |
| `Records.TransactionJson` | blockchain.py:59-63 | the three-key dictionary of a transaction; `TransactionRoundTrip` proves it holds all of the transaction |
| `Records.BlockJson` | blockchain.py:38-44 | the five-key dictionary of a block; `BlockRoundTrip` proves it holds all of the block |
| `Records.Hash` | blockchain.py:77-87 | the digest of the JSON text of the block dictionary; `HashDeterminedByBlock` states when two blocks hash alike |
| `Puzzle.Guess` | blockchain.py:73 | the two decimal texts joined with no separator; `GuessInjectiveInProof` and `GuessAmbiguous` state what it determines |
| `Puzzle.ValidProof` | blockchain.py:65-75 | `valid_proof`; `ValidProofMeaning` states its meaning |
| `Ledger.Seal` | blockchain.py:38-49 | `new_block` on the state; `SealFacts` states its meaning |
| `Ledger.Submit` | blockchain.py:59-63 | `new_transaction` on the state; `SubmitFacts` states its meaning |
| `Ledger.Genesis` | blockchain.py:8-13 | the state after construction; `GenesisFacts` states its contents |
| `Ledger.Last` | blockchain.py:89-91 | `last_block` on the state; `SealFacts` states what it is after a seal |
| `Ledger.NextIndex` | blockchain.py:64 | the value `new_transaction` returns; `SubmitFacts` proves it is len(chain) + 1 in a valid state |
| `Records.TransactionRoundTrip` | blockchain.py:59-63 | the dictionary of a transaction holds exactly its sender, recipient and amount, and decodes back to it |
| `Records.TransactionsRoundTrip` | blockchain.py:41 | the JSON list of a transaction sequence decodes back to the same sequence, order included |
| `Records.BlockRoundTrip` | blockchain.py:38-44 | the dictionary of a block holds its five fields under their five keys and decodes back to the block |
| `Records.HashDeterminedByBlock` | blockchain.py:77-87 | for any digest and JSON writer that do not collide on the texts of the two given blocks, the blocks hash alike exactly when they are equal: field order plays no part and no field is left out |
| `Ledger.GenesisFacts` | blockchain.py:8-13 | construction leaves one block (index 1, no transactions, proof 100, previous hash the integer 1) and an empty pending pool, and the state is valid |
| `Ledger.SealFacts` | blockchain.py:38-49 | sealing adds exactly one block at the end with index len(chain) + 1, the whole pending pool in order, and the given proof and previous hash; earlier blocks are unchanged, the pool is emptied, the sealed transactions grow by exactly the pool, and validity is kept |
| `Ledger.SubmitFacts` | blockchain.py:59-64 | submitting appends one transaction to the pool and leaves the chain as it was; in a valid state the returned index is len(chain) + 1 |
| `Ledger.HonestAppend` | blockchain.py:48 | appending a block keeps the chain honest exactly when the chain was honest and the block names its predecessor's hash and solves its predecessor's puzzle |
| `Ledger.SealHonestIff` | blockchain.py:31-49 | a seal keeps every hash link and proof relation exactly when the caller passes the last block's hash and a proof valid for the last proof; the code checks neither |
| `Ledger.StepFacts` | blockchain.py:31-64 | each operation keeps the old chain as a prefix, adds exactly the submitted transactions, and keeps validity |
| `Ledger.RunPreservesValid` | blockchain.py:39 | from a valid state, after any sequence of operations every block's index is its position + 1, the first block still has the genesis contents, and it is the same first block as before |
| `Ledger.RunKeepsEarlierBlocks` | blockchain.py:48 | blocks are only appended: any earlier chain is a prefix of every later one |
| `Ledger.RunConservesTransactions` | blockchain.py:41-47 | the sealed transactions followed by the pending ones grow by exactly the submitted ones, in arrival order: none is lost, duplicated or reordered |
| `Ledger.HonestRunKeepsHonest` | blockchain.py:31-49 | if callers always pass the last block's hash and a valid proof, the chain stays linked and proven |
| `Ledger.ReachableFacts` | blockchain.py:8-64 | every ledger reached from construction is valid, and its sealed plus pending transactions are exactly the submitted ones in order |
| `Ledger.FirstBlockScenario` | blockchain.py:8-64 | after construction and one transaction, the next index is 2; sealing with the least witness and the genesis hash gives block 2 holding just that transaction, an empty pool and an honest chain |
| `Ledger.Blockchain.constructor` | blockchain.py:8-13 | the object starts as the genesis state, built by calling `NewBlock` on an empty chain and buffer |
| `Ledger.Blockchain.LastBlock` | blockchain.py:89-91 | the last block of the chain; in a valid object its index is the chain's length |
| `Ledger.Blockchain.NewBlock` | blockchain.py:31-49 | `previous_hash` defaults to `NoHash` (Python `None`); the new state is `Seal` of the old one; the returned block is the appended one and is `LastBlock()` afterwards; the buffer is empty; validity is kept |
| `Ledger.Blockchain.NewTransaction` | blockchain.py:51-64 | on any non-empty chain, the new state is `Submit` of the old one; the chain is unchanged; the result is the old last index + 1, which in a valid object is len(chain) + 1, and validity is kept |
| `Ledger.Blockchain.ProofOfWork` | blockchain.py:15-29 | the result is valid for the last proof and no smaller non-negative integer is: it is the least witness |

## Left out

- SHA-256 and `json.dumps(sort_keys=True)` (blockchain.py:74, blockchain.py:86-87) are parameters, not implementations. The UTF-8 `.encode()` calls are folded into the `sha256` parameter. The guess text is ASCII, so its encoding is the text itself.
- `Records.HashDeterminedByBlock`: assumes that neither the JSON writer nor the digest collides on the two blocks compared. Real SHA-256 can collide, so this is the usual collision-free idealisation for those two texts, not a fact about SHA-256.
- Wall-clock time (`time()`, blockchain.py:40) is the `now` parameter. It is a `real`, not a float, and its JSON text is up to `dumps`.
- `Ledger.Blockchain.ProofOfWork`: does not model the run in which no witness exists and the source loops forever. It requires that some non-negative witness exists, and that witness bounds the search.
- Python's dynamic typing is replaced by fixed types: `sender` and `recipient` are strings, `amount` and `proof` are integers, and `previous_hash` is one of three kinds. So there are no dictionaries with extra or missing keys.
- Aliasing: `new_block` returns the same dict object it appends, and that block shares the list object that `current_transactions` held until the reset. The model uses values, so a caller who later mutates the returned dict is not modelled.
- The interpreter's limit on int-to-text conversion is not modelled: recent CPython raises `ValueError` at blockchain.py:73 and blockchain.py:86 for integers with more than 4300 digits, while `IntText`, `Guess` and `ValidProof` are total.
- The unused `uuid4` import (blockchain.py:5) has no counterpart.
