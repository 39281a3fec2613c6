/** The ledger of the brochain: an append-only list of blocks ("bros") and a
    pool of pending transactions ("bumps") that the next block seals.

    The operations are given twice, as is usual for state that the program
    updates in place: as pure step functions on a `Snapshot` value (used by
    the lemmas here and in module Traces), and as methods of class
    `Brochain`, which update its fields and are proved against those step
    functions. */
module Ledger {

  datatype Option<+T> = None | Some(value: T)

  /** The two Python exceptions the ledger can raise: `chain[-1]` on an
      empty list, and subscripting the `None` that the stub `last_bro`
      returns. */
  datatype Exception = IndexError | TypeError

  datatype Result<+T> = Ok(value: T) | Err(error: Exception)

  /** A pending transaction: `{sender, recipient, amount}`. */
  datatype Bump = Bump(sender: string, recipient: string, amount: int)

  /** A block: `{index, timestamp, transactions, proof, previous_hash}`. */
  datatype Bro = Bro(index: int, timestamp: real, transactions: seq<Bump>, proof: int, previousHash: string)

  predicate IsHexDigit(c: char) {
    '0' <= c <= '9' || 'a' <= c <= 'f'
  }

  /** The shape of a SHA-256 `hexdigest()`: 64 lower-case hexadecimal digits. */
  type Digest = s: string | |s| == 64 && forall i :: 0 <= i < |s| ==> IsHexDigit(s[i])
    witness Zeros(64)

  /** A string of `n` zero digits. */
  function Zeros(n: nat): (s: string)
    ensures |s| == n && forall i :: 0 <= i < n ==> s[i] == '0'
  {
    if n == 0 then "" else Zeros(n - 1) + "0"
  }

  /** The block digest. SHA-256 over the sorted-key JSON text is not modelled:
      any function from block values to digests may be supplied, and being a
      function it gives equal blocks equal digests. */
  type Hasher = Bro -> Digest

  /** The ledger's state as a value: the chain and the pending pool. */
  datatype Snapshot = Snapshot(chain: seq<Bro>, bumps: seq<Bump>)

  /** The state after an operation together with what the operation returned
      or raised. */
  datatype Outcome<T> = Outcome(after: Snapshot, result: Result<T>)

  /** A fresh ledger: no blocks and no pending transactions. */
  const Fresh := Snapshot([], [])

  /** Python truthiness of an optional string argument: `None` and `""` are
      false, every other string is true. */
  predicate Truthy(p: Option<string>) {
    p.Some? && p.value != ""
  }

  /** Blocks carry 1-based, strictly sequential indices. */
  predicate WellIndexed(chain: seq<Bro>) {
    forall i :: 0 <= i < |chain| ==> chain[i].index == i + 1
  }

  /** Every block after the first records the digest of its predecessor. */
  predicate Linked(hash: Hasher, chain: seq<Bro>) {
    forall i :: 0 < i < |chain| ==> chain[i].previousHash == hash(chain[i - 1])
  }

  /** `previous_hash or self.hash(self.chain[-1])`: the argument when it is
      truthy, otherwise the digest of the last block, which raises
      IndexError on an empty chain. */
  function PreviousHashFor(hash: Hasher, chain: seq<Bro>, previousHash: Option<string>): (r: Result<string>)
    ensures r.Err? <==> !Truthy(previousHash) && chain == []
    ensures r.Err? ==> r.error == IndexError
    ensures Truthy(previousHash) ==> r == Ok(previousHash.value)
    ensures !Truthy(previousHash) && chain != [] ==> r == Ok(hash(chain[|chain| - 1]))
  {
    if Truthy(previousHash) then Ok(previousHash.value)
    else if chain == [] then Err(IndexError)
    else Ok(hash(chain[|chain| - 1]))
  }

  /** `new_bro`: seal the whole pending pool into a new block, append it and
      empty the pool. When the previous hash cannot be computed the
      exception is raised before anything is changed. */
  function NewBroStep(hash: Hasher, s: Snapshot, proof: int, previousHash: Option<string>, timestamp: real): (r: Outcome<Bro>)
    ensures r.result.Ok? <==> Truthy(previousHash) || s.chain != []
    ensures r.result.Err? ==> r.after == s && r.result.error == IndexError
    ensures r.result.Ok? ==>
      var bro := r.result.value;
      && r.after.chain == s.chain + [bro]
      && r.after.bumps == []
      && bro.index == |s.chain| + 1
      && bro.timestamp == timestamp
      && bro.transactions == s.bumps
      && bro.proof == proof
      && (Truthy(previousHash) ==> bro.previousHash == previousHash.value)
      && (!Truthy(previousHash) ==> bro.previousHash == hash(s.chain[|s.chain| - 1]))
  {
    match PreviousHashFor(hash, s.chain, previousHash)
    case Err(e) => Outcome(s, Err(e))
    case Ok(prev) =>
      var bro := Bro(|s.chain| + 1, timestamp, s.bumps, proof, prev);
      Outcome(Snapshot(s.chain + [bro], []), Ok(bro))
  }

  /** `self.chain[-1]`, the corrected `last_bro`. */
  function LastOf(chain: seq<Bro>): (r: Result<Bro>)
    ensures r.Ok? <==> chain != []
    ensures r.Ok? ==> r.value == chain[|chain| - 1]
    ensures r.Err? ==> r.error == IndexError
  {
    if chain == [] then Err(IndexError) else Ok(chain[|chain| - 1])
  }

  /** `new_bump` with `last_bro` returning the last block: the transaction is
      appended first; only then is the last block read, so on an empty
      chain the pool has grown when IndexError is raised. */
  function NewBumpStep(s: Snapshot, sender: string, recipient: string, amount: int): (r: Outcome<int>)
    ensures r.after == Snapshot(s.chain, s.bumps + [Bump(sender, recipient, amount)])
    ensures r.result.Ok? <==> s.chain != []
    ensures r.result.Err? ==> r.result.error == IndexError
    ensures r.result.Ok? ==> r.result.value == s.chain[|s.chain| - 1].index + 1
    ensures WellIndexed(s.chain) && s.chain != [] ==> r.result == Ok(|s.chain| + 1)
  {
    var after := Snapshot(s.chain, s.bumps + [Bump(sender, recipient, amount)]);
    match LastOf(s.chain)
    case Err(e) => Outcome(after, Err(e))
    case Ok(last) => Outcome(after, Ok(last.index + 1))
  }

  /** `last_bro` exactly as written: its body is `pass`, so it returns `None`. */
  function LastBroAsWritten(s: Snapshot): Option<Bro> {
    None
  }

  /** `bro['index']`: subscripting `None` raises TypeError. */
  function IndexOf(bro: Option<Bro>): Result<int> {
    match bro
    case None => Err(TypeError)
    case Some(b) => Ok(b.index)
  }

  /** `new_bump` exactly as written, on top of the stub `last_bro`. */
  function NewBumpStepAsWritten(s: Snapshot, sender: string, recipient: string, amount: int): Outcome<int> {
    var after := Snapshot(s.chain, s.bumps + [Bump(sender, recipient, amount)]);
    match IndexOf(LastBroAsWritten(s))
    case Err(e) => Outcome(after, Err(e))
    case Ok(i) => Outcome(after, Ok(i + 1))
  }

  /** As written, `new_bump` never returns the index its documentation
      promises: it always appends the transaction and then raises
      TypeError, whatever the state of the chain. */
  lemma NewBumpAsWrittenAlwaysRaises(s: Snapshot, sender: string, recipient: string, amount: int)
    ensures NewBumpStepAsWritten(s, sender, recipient, amount).after.bumps == s.bumps + [Bump(sender, recipient, amount)]
    ensures NewBumpStepAsWritten(s, sender, recipient, amount).result == Err(TypeError)
    ensures NewBumpStepAsWritten(s, sender, recipient, amount).after == NewBumpStep(s, sender, recipient, amount).after
  {
  }

  /** A concrete witness of the discrepancy: after a genesis block, the
      corrected `new_bump` answers 2 where the code as written raises. */
  lemma NewBumpAsWrittenDiffersAfterGenesis(hash: Hasher)
    ensures var genesis := NewBroStep(hash, Fresh, 100, Some("1"), 0.0).after;
      && NewBumpStep(genesis, "A", "B", 5).result == Ok(2)
      && NewBumpStepAsWritten(genesis, "A", "B", 5).result == Err(TypeError)
  {
    var genesis := NewBroStep(hash, Fresh, 100, Some("1"), 0.0).after;
    assert genesis.chain == [Bro(1, 0.0, [], 100, "1")];
  }

  /** new_bro keeps the indices sequential, whatever previous hash is used. */
  lemma NewBroKeepsIndexing(hash: Hasher, s: Snapshot, proof: int, previousHash: Option<string>, timestamp: real)
    requires WellIndexed(s.chain)
    ensures WellIndexed(NewBroStep(hash, s, proof, previousHash, timestamp).after.chain)
  {
  }

  /** Appending a block to a linked chain keeps it linked exactly when the
      block records the digest of the former last block (or the chain was
      empty): an explicit `previous_hash` may break the linkage. */
  lemma NewBroLinkage(hash: Hasher, s: Snapshot, proof: int, previousHash: Option<string>, timestamp: real)
    requires Linked(hash, s.chain)
    requires NewBroStep(hash, s, proof, previousHash, timestamp).result.Ok?
    ensures var r := NewBroStep(hash, s, proof, previousHash, timestamp);
      Linked(hash, r.after.chain) <==>
        (s.chain == [] || r.result.value.previousHash == hash(s.chain[|s.chain| - 1]))
  {
    var r := NewBroStep(hash, s, proof, previousHash, timestamp);
    var c := r.after.chain;
    if Linked(hash, c) && s.chain != [] {
      assert c[|s.chain|].previousHash == hash(c[|s.chain| - 1]);
    }
  }

  /** With `previous_hash` omitted (or empty), new_bro keeps a linked chain
      linked. */
  lemma NewBroOmittedKeepsLinkage(hash: Hasher, s: Snapshot, proof: int, previousHash: Option<string>, timestamp: real)
    requires Linked(hash, s.chain)
    requires !Truthy(previousHash)
    ensures Linked(hash, NewBroStep(hash, s, proof, previousHash, timestamp).after.chain)
  {
  }

  /** The ledger object. `chain` and `currentBumps` are the fields the
      program mutates; `hash` stands for the static `hash` method. */
  class Brochain {
    const hash: Hasher
    var chain: seq<Bro>
    var currentBumps: seq<Bump>

    /** The object invariant every operation keeps: sequential indices. */
    ghost predicate Valid()
      reads this
    {
      WellIndexed(chain)
    }

    /** The current state as a value. */
    function State(): (s: Snapshot)
      reads this
      ensures s.chain == chain && s.bumps == currentBumps
    {
      Snapshot(chain, currentBumps)
    }

    /** A fresh ledger has an empty chain and an empty pending pool. */
    constructor (hash: Hasher)
      ensures this.hash == hash
      ensures chain == [] && currentBumps == []
      ensures State() == Fresh && Valid()
    {
      this.hash := hash;
      chain := [];
      currentBumps := [];
    }

    /** `last_bro`, corrected to return the last block of the chain (the
        source's body is a stub): `LastOf` on the current chain. Under the
        invariant its index is the length of the chain. */
    function LastBro(): (r: Bro)
      reads this
      requires chain != []
      ensures LastOf(chain) == Ok(r)
      ensures Valid() ==> r.index == |chain|
    {
      chain[|chain| - 1]
    }

    /** `new_bro(proof, previous_hash)`, with the wall-clock timestamp taken
        as a parameter. */
    method NewBro(proof: int, previousHash: Option<string>, timestamp: real) returns (r: Result<Bro>)
      modifies this
      ensures Outcome(State(), r) == NewBroStep(hash, old(State()), proof, previousHash, timestamp)
      ensures r.Ok? ==> chain == old(chain) + [r.value] && currentBumps == []
      ensures r.Ok? ==> r.value.index == old(|chain|) + 1 && r.value.transactions == old(currentBumps)
      ensures r.Err? ==> r.error == IndexError && chain == old(chain) && currentBumps == old(currentBumps)
      ensures old(Valid()) ==> Valid()
      ensures old(Linked(hash, chain)) && !Truthy(previousHash) ==> Linked(hash, chain)
    {
      ghost var before := State();
      var prev: string;
      if Truthy(previousHash) {
        prev := previousHash.value;
      } else if chain == [] {
        return Err(IndexError);
      } else {
        prev := hash(chain[|chain| - 1]);
      }
      var bro := Bro(|chain| + 1, timestamp, currentBumps, proof, prev);
      currentBumps := [];
      chain := chain + [bro];
      r := Ok(bro);
      if Linked(hash, before.chain) && !Truthy(previousHash) {
        NewBroOmittedKeepsLinkage(hash, before, proof, previousHash, timestamp);
      }
    }

    /** `new_bump(sender, recipient, amount)`: returns the index of the block
        that will hold the new transaction. */
    method NewBump(sender: string, recipient: string, amount: int) returns (r: Result<int>)
      modifies this
      ensures Outcome(State(), r) == NewBumpStep(old(State()), sender, recipient, amount)
      ensures chain == old(chain)
      ensures currentBumps == old(currentBumps) + [Bump(sender, recipient, amount)]
      ensures r.Err? <==> chain == []
      ensures Valid() && chain != [] ==> r == Ok(|chain| + 1)
    {
      currentBumps := currentBumps + [Bump(sender, recipient, amount)];
      if chain == [] {
        return Err(IndexError);
      }
      r := Ok(LastBro().index + 1);
    }
  }
}
