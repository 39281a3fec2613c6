# Brochain ledger in Dafny

A model of the ledger of the brochain toy blockchain (`brochain.py`, class
`Brochain`). The ledger holds an append-only list of blocks ("bros") and a
pool of pending transactions ("bumps"):

- `new_bro(proof, previous_hash)` seals the whole pool into a new block and
  appends it. The block's index is the chain length plus one. Its previous
  hash is the argument when that is truthy, otherwise the digest of the last
  block. The pool is then emptied.
- `new_bump(sender, recipient, amount)` appends a transaction to the pool and
  returns the index of the block that will hold it.
- `hash(bro)` is the block digest.
- `last_bro` gives the last block.

Files:

- `brochain.dfy`, module `Ledger`. The records `Bump` and `Bro`. The state
  as a value, `Snapshot`. Pure step functions `NewBroStep` and `NewBumpStep`,
  which return the new state together with the result or the Python exception
  raised (`Outcome`, `Result`). The class `Brochain`: its fields `chain` and
  `currentBumps` are updated in place by `NewBro` and `NewBump`, which are
  proved against the step functions. The file also holds the per-step lemmas
  on indexing and hash linkage, and the as-written model of the stub
  `last_bro`.
- `traces.dfy`, module `Traces`. Runs of calls from a fresh ledger (`Run`),
  and the invariants every run keeps: sequential 1-based indices, hash
  linkage when only the genesis block is given a previous hash (new_bro calls
  that raised on the empty chain are unconstrained), conservation of
  transactions, and an append-only chain.

Modelling decisions:

- The digest is a parameter. The constructor takes a function `hash: Bro ->
  Digest`, where `Digest` is a string of 64 lower-case hexadecimal digits, the
  shape of a SHA-256 hex digest. Nothing else is assumed about it.
- The wall-clock timestamp is a `real` argument of `NewBro`. Nothing is proved
  about it.
- `previous_hash` is an `Option<string>`. Python's `or` treats `None` and `""`
  as false, so both fall back to the digest of the last block (`Truthy`).
- Exceptions are results, not preconditions. `new_bro` with no truthy
  previous hash on an empty chain raises IndexError at `self.chain[-1]`. The
  dictionary literal is evaluated before any field is changed, so the state
  stays unchanged. `new_bump` appends the transaction before it reads the last
  block. So on an empty chain the pool has grown when the exception is
  raised, and the model keeps that.
- `new_bump` returns the last block's `index + 1`, as the code does. Its
  docstring (brochain.py:39) promises the index of the block that will hold
  the new transaction, that is, the chain length + 1, and does not mention the
  empty-chain error. `NewBumpStep` proves the two agree whenever the indices
  are sequential and the chain is non-empty, and it raises on an empty chain.
- A raised exception does not end a run in `Traces`: the next call starts
  from the state the failed call left behind.

## Model

| member | source | states |
|---|---|---|
| `Ledger.Brochain.constructor` | brochain.py:6-8 | a fresh ledger has an empty chain and an empty pending pool, and its indices are trivially sequential |
| `Ledger.Brochain.NewBro` | brochain.py:10-30 | the new state and result are those of `NewBroStep`. On success exactly one block is appended, earlier blocks are unchanged, the block's index is the old length + 1, its transactions are the old pool, and the pool is empty. On IndexError nothing changes. Sequential indices are kept, and hash linkage is kept when the previous hash is omitted |
| `Ledger.Brochain.NewBump` | brochain.py:32-48 | the chain is unchanged and exactly one `{sender, recipient, amount}` record is appended to the end of the pool. IndexError is raised exactly when the chain is empty. Under sequential indices the result is the chain length + 1 |
| `Ledger.Brochain.LastBro` | brochain.py:61-65 | the last block of a non-empty chain, the same block `LastOf` gives; under sequential indices its index equals the chain length |
| `Ledger.PreviousHashFor` | brochain.py:24 | a truthy argument is used as is; `None` or `""` falls back to the digest of the last block; that fallback on an empty chain is IndexError, and the only error |
| `Ledger.NewBroStep` | brochain.py:19-29 | succeeds exactly when the previous hash is truthy or the chain is non-empty. On success: one block appended, index = old length + 1, transactions = old pool, given proof and timestamp, the chosen previous hash, and an empty pool. On failure: IndexError and the state unchanged |
| `Ledger.LastOf` | brochain.py:62-65 | the last block of the chain as the documentation describes `last_bro`; IndexError exactly on an empty chain |
| `Ledger.NewBumpStep` | brochain.py:42-48 | the pool gains exactly the new record at its end and the chain is unchanged. The result is the last block's index + 1, which is the chain length + 1 under sequential indices. IndexError exactly when the chain is empty |
| `Ledger.NewBumpAsWrittenAlwaysRaises` | brochain.py:42-48 | with `last_bro` as written, every call appends the transaction and then raises TypeError; it never returns an index. The state it leaves is the corrected model's, so the run invariants carry over |
| `Ledger.NewBumpAsWrittenDiffersAfterGenesis` | brochain.py:39-48 | after a genesis block, the corrected model answers 2 where the code as written raises TypeError |
| `Ledger.NewBroKeepsIndexing` | brochain.py:20 | appending a block keeps the indices 1-based and sequential, whatever previous hash is chosen |
| `Ledger.NewBroLinkage` | brochain.py:24 | after a successful append to a hash-linked chain, the chain is still linked exactly when the chain was empty or the new block records the digest of the former last block |
| `Ledger.NewBroOmittedKeepsLinkage` | brochain.py:24 | with the previous hash omitted or empty, appending keeps a hash-linked chain linked |
| `Traces.Apply` | brochain.py:22-46 | each call either leaves the chain alone and only extends the pool, or appends exactly one block and empties the pool; a new_bump call appends exactly its record |
| `Traces.RunIsWellIndexed` | brochain.py:20 | every chain built from a fresh ledger has `chain[i].index == i + 1` |
| `Traces.RunConservesBumps` | brochain.py:22-27 | the transactions sealed in the chain followed by the pool are exactly the submitted transactions in submission order: none lost, duplicated or reordered |
| `Traces.ChainNeedsNewBro` | brochain.py:29 | a block exists only after some new_bro call |
| `Traces.RunIsLinked` | brochain.py:24 | when every new_bro call made while the chain already holds a block leaves the previous hash out (or empty), every block after the first records the digest of its predecessor; calls that raised before genesis may pass anything |
| `Traces.NewBumpAfterRun` | brochain.py:48 | after any run that produced a block, new_bump returns the chain length + 1 |
| `Traces.RunIsAppendOnly` | brochain.py:29 | the chain after any prefix of a run is a prefix of the chain after the whole run |
| `Traces.GenesisScenario` | brochain.py:10-48 | genesis with previous hash "1" gives block 1 with no transactions; new_bump("A", "B", 5) then returns 2; the next block seals that transaction and records the digest of block 1 |

## Findings

| source | as written | input that shows it | evidently intended | confidence | as-written member | corrected member |
|---|---|---|---|---|---|---|
| brochain.py:61-66 | the `last_bro` property has the body `pass`, so it returns `None`; `new_bump` then evaluates `None['index']` (line 48) and raises TypeError after it has already appended the transaction | `new_bro(100, "1")` followed by `new_bump("A", "B", 5)` | `last_bro` returns `self.chain[-1]`, so `new_bump` returns the index of the next block (2 here) | high; not executed | `Ledger.NewBumpAsWrittenAlwaysRaises` | `Ledger.NewBumpStep` |

## Left out

- SHA-256 and `json.dumps(..., sort_keys=True)` (brochain.py:58-59) are library calls. The digest is any function from block values to 64-digit hex strings, supplied to the constructor. Because it is a function, equal blocks always get equal digests. No lemma states this, since it holds by construction.
- `hash` is a static method in the source. Here it is a constant field set by the constructor.
- The `time()` timestamp (brochain.py:21) is a float read from the clock. It is an arbitrary `real` argument, and no property depends on it.
- Falsy `previous_hash` values that are not strings (`0`, `False`, `[]`) are not modelled: the argument is documented as an optional string.
- Aliasing is not modelled. `new_bro` returns the same dictionary object that it appends to the chain, so a caller that mutates the returned block also mutates the chain. Here blocks are immutable values.
- Python performs no type or value checks on the arguments (amounts may be negative or non-integers). The model types them as documented (`string`, `int`) and adds no balance validation.
- Proof-of-work, chain validation, conflict resolution, HTTP endpoints and node identity are not in `brochain.py` and are not modelled.
