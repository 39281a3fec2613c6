/** Runs of ledger calls from a fresh ledger, and the invariants every such
    run keeps. A call that raises leaves the state it reached (the caller is
    taken to catch the exception and carry on). */
module Traces {
  import opened Ledger

  datatype Call =
    | NewBroCall(proof: int, previousHash: Option<string>, timestamp: real)
    | NewBumpCall(sender: string, recipient: string, amount: int)

  /** One call: the pool only ever shrinks when a block is appended, and
      then it is emptied; otherwise it keeps what it had. */
  function Apply(hash: Hasher, s: Snapshot, c: Call): (t: Snapshot)
    ensures
      || (t.chain == s.chain && s.bumps <= t.bumps)
      || (|t.chain| == |s.chain| + 1 && s.chain <= t.chain && t.bumps == [])
    ensures c.NewBumpCall? ==> t.chain == s.chain && t.bumps == s.bumps + [Bump(c.sender, c.recipient, c.amount)]
  {
    match c
    case NewBroCall(proof, prev, ts) => NewBroStep(hash, s, proof, prev, ts).after
    case NewBumpCall(sender, recipient, amount) => NewBumpStep(s, sender, recipient, amount).after
  }

  /** The state after the calls, in order, starting from `s`. */
  function Run(hash: Hasher, s: Snapshot, calls: seq<Call>): Snapshot
  {
    if calls == [] then s
    else Apply(hash, Run(hash, s, calls[..|calls| - 1]), calls[|calls| - 1])
  }

  /** Every transaction submitted, in submission order. */
  function Submitted(calls: seq<Call>): (r: seq<Bump>)
  {
    if calls == [] then []
    else
      var c := calls[|calls| - 1];
      Submitted(calls[..|calls| - 1]) + (if c.NewBumpCall? then [Bump(c.sender, c.recipient, c.amount)] else [])
  }

  /** The transactions sealed into the chain, block after block. */
  function Sealed(chain: seq<Bro>): seq<Bump>
  {
    if chain == [] then [] else Sealed(chain[..|chain| - 1]) + chain[|chain| - 1].transactions
  }

  /** Only the genesis block may be given a previous hash: every new_bro
      call made while the chain already holds a block leaves it out (or
      passes the empty string). Calls that raise on the empty chain are
      unconstrained. */
  predicate OnlyGenesisSuppliesHash(hash: Hasher, calls: seq<Call>) {
    forall k :: 0 <= k < |calls| && calls[k].NewBroCall? && Run(hash, Fresh, calls[..k]).chain != [] ==>
      !Truthy(calls[k].previousHash)
  }

  predicate HasNewBro(calls: seq<Call>) {
    exists i :: 0 <= i < |calls| && calls[i].NewBroCall?
  }

  /** A chain built from a fresh ledger carries indices 1, 2, 3, ... */
  lemma {:induction false} RunIsWellIndexed(hash: Hasher, calls: seq<Call>)
    ensures WellIndexed(Run(hash, Fresh, calls).chain)
  {
    if calls != [] {
      var prefix := calls[..|calls| - 1];
      RunIsWellIndexed(hash, prefix);
      var s := Run(hash, Fresh, prefix);
      match calls[|calls| - 1]
      case NewBroCall(proof, prev, ts) => NewBroKeepsIndexing(hash, s, proof, prev, ts);
      case NewBumpCall(_, _, _) =>
    }
  }

  /** No transaction is lost or duplicated: the blocks' transactions followed
      by the pending pool are exactly the submitted transactions, in order. */
  lemma {:induction false} RunConservesBumps(hash: Hasher, calls: seq<Call>)
    ensures var s := Run(hash, Fresh, calls); Sealed(s.chain) + s.bumps == Submitted(calls)
  {
    if calls != [] {
      var prefix := calls[..|calls| - 1];
      RunConservesBumps(hash, prefix);
      var s := Run(hash, Fresh, prefix);
      match calls[|calls| - 1]
      case NewBroCall(proof, prev, ts) =>
        var r := NewBroStep(hash, s, proof, prev, ts);
        if r.result.Ok? {
          assert r.after.chain[..|r.after.chain| - 1] == s.chain;
          assert Sealed(r.after.chain) + r.after.bumps == Sealed(s.chain) + s.bumps + [];
        }
      case NewBumpCall(sender, recipient, amount) =>
        assert Sealed(s.chain) + (s.bumps + [Bump(sender, recipient, amount)])
            == (Sealed(s.chain) + s.bumps) + [Bump(sender, recipient, amount)];
    }
  }

  /** A run without any new_bro call leaves the chain empty. */
  lemma {:induction false} ChainNeedsNewBro(hash: Hasher, calls: seq<Call>)
    requires Run(hash, Fresh, calls).chain != []
    ensures HasNewBro(calls)
  {
    var prefix := calls[..|calls| - 1];
    var last := calls[|calls| - 1];
    if Run(hash, Fresh, prefix).chain != [] {
      ChainNeedsNewBro(hash, prefix);
      var i :| 0 <= i < |prefix| && prefix[i].NewBroCall?;
      assert calls[i] == prefix[i];
    } else {
      assert last.NewBroCall?;
      assert calls[|calls| - 1] == last;
    }
  }

  /** When only the genesis block is given a previous hash, the chain stays
      hash-linked: every block records the digest of its predecessor. */
  lemma {:induction false} RunIsLinked(hash: Hasher, calls: seq<Call>)
    requires OnlyGenesisSuppliesHash(hash, calls)
    ensures Linked(hash, Run(hash, Fresh, calls).chain)
  {
    if calls != [] {
      var n := |calls| - 1;
      var prefix := calls[..n];
      assert OnlyGenesisSuppliesHash(hash, prefix) by {
        forall k | 0 <= k < |prefix| && prefix[k].NewBroCall? && Run(hash, Fresh, prefix[..k]).chain != []
          ensures !Truthy(prefix[k].previousHash)
        {
          assert prefix[..k] == calls[..k] && prefix[k] == calls[k];
        }
      }
      RunIsLinked(hash, prefix);
      var s := Run(hash, Fresh, prefix);
      match calls[n]
      case NewBroCall(proof, prev, ts) =>
        if s.chain != [] {
          assert calls[..n] == prefix;
          NewBroOmittedKeepsLinkage(hash, s, proof, prev, ts);
        }
      case NewBumpCall(_, _, _) =>
    }
  }

  /** Along any run, new_bump answers with the length of the chain plus one,
      the index of the next block to be appended. */
  lemma {:induction false} NewBumpAfterRun(hash: Hasher, calls: seq<Call>, sender: string, recipient: string, amount: int)
    requires Run(hash, Fresh, calls).chain != []
    ensures var s := Run(hash, Fresh, calls);
      NewBumpStep(s, sender, recipient, amount).result == Ok(|s.chain| + 1)
  {
    RunIsWellIndexed(hash, calls);
  }

  /** The chain is append-only: the chain after any prefix of a run is a
      prefix of the chain after the whole run. */
  lemma {:induction false} RunIsAppendOnly(hash: Hasher, s: Snapshot, calls: seq<Call>, k: nat)
    requires k <= |calls|
    ensures Run(hash, s, calls[..k]).chain <= Run(hash, s, calls).chain
  {
    if k < |calls| {
      var prefix := calls[..|calls| - 1];
      assert calls[..k] == prefix[..k];
      RunIsAppendOnly(hash, s, prefix, k);
    } else {
      assert calls[..k] == calls;
    }
  }

  /** The genesis scenario: a first block with explicit previous hash "1",
      one transaction that is told it goes into block 2, and a second block
      that seals it and links to the first. */
  lemma GenesisScenario(hash: Hasher, ts1: real, ts2: real, proof2: int)
    ensures
      var first := NewBroStep(hash, Fresh, 100, Some("1"), ts1);
      var bump := NewBumpStep(first.after, "A", "B", 5);
      var second := NewBroStep(hash, bump.after, proof2, None, ts2);
      && first.result == Ok(Bro(1, ts1, [], 100, "1"))
      && bump.result == Ok(2)
      && second.result == Ok(Bro(2, ts2, [Bump("A", "B", 5)], proof2, hash(first.result.value)))
      && second.after == Snapshot([first.result.value, second.result.value], [])
      && Linked(hash, second.after.chain)
  {
    var first := NewBroStep(hash, Fresh, 100, Some("1"), ts1);
    var genesis := Bro(1, ts1, [], 100, "1");
    assert first.after == Snapshot([genesis], []);
    var bump := NewBumpStep(first.after, "A", "B", 5);
    assert bump.after == Snapshot([genesis], [Bump("A", "B", 5)]);
    var second := NewBroStep(hash, bump.after, proof2, None, ts2);
    var next := Bro(2, ts2, [Bump("A", "B", 5)], proof2, hash(genesis));
    assert second.after == Snapshot([genesis, next], []);
  }
}
