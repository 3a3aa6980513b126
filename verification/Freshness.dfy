/** No id is ever given out twice.

    Ids are hashes, so freshness is a property of the chain: an output id could
    repeat only if a transaction were applied twice, and the output its first
    input spends is dead after the first time. `seen` is the set of (unsigned)
    transactions applied so far. */
module Freshness {
  import opened Hashing
  import opened Diffs
  import opened Ledger

  /** The number of ancestors of a block. */
  function Height(id: Hash): nat {
    match id
    case BlockID(b) => if b.parentID == ZERO then 0 else Height(b.parentID) + 1
    case _ => 0
  }

  /** c is the id of a contract formed by a transaction in seen. */
  predicate Created(seen: set<Txn>, c: Hash) {
    c.ItemID? && c.source.TxnContracts? && c.source.txn in seen
  }

  /** p is the id of an output that has come into being by height n. */
  predicate Used(contracts: map<Hash, Contract>, seen: set<Txn>, n: nat, p: Hash) {
    && p.ItemID?
    && match p.source
       case TxnOutputs(u) => u in seen
       case TxnContracts(u) => false
       case Payouts(b) => Height(b) <= n
       case ProofOutputs(c, _) => Created(seen, c) && c !in contracts
  }

  predicate Held(delayed: Delayed, k: nat, p: Hash) {
    k in delayed && p in delayed[k]
  }

  /** p is spendable now or later. */
  ghost predicate Live(s: State, p: Hash) {
    p in s.outputs || exists k: nat :: Held(s.delayed, k, p)
  }

  predicate Spends(u: Txn, p: Hash) {
    u.siacoinInputs != [] && u.siacoinInputs[0].parentID == p
  }

  ghost predicate Fresh(s: State, seen: set<Txn>, n: nat) {
    && (forall p :: p in s.outputs ==> Used(s.contracts, seen, n, p))
    && (forall k: nat, p :: Held(s.delayed, k, p) ==> Used(s.contracts, seen, n, p) && p !in s.outputs)
    && (forall k: nat, j: nat, p :: Held(s.delayed, k, p) && Held(s.delayed, j, p) ==> k == j)
    && (forall c :: c in s.contracts ==> Created(seen, c))
    && (forall u, p :: u in seen && Spends(u, p) ==> Used(s.contracts, seen, n, p) && !Live(s, p))
  }

  /** p neither lives nor has been spent. */
  ghost predicate Untouched(s: State, seen: set<Txn>, p: Hash) {
    !Live(s, p) && forall u :: u in seen ==> !Spends(u, p)
  }

  lemma {:induction false} UnusedIsUntouched(s: State, seen: set<Txn>, n: nat, p: Hash)
    requires Fresh(s, seen, n) && !Used(s.contracts, seen, n, p)
    ensures Untouched(s, seen, p)
  {
  }

  // ---------------------------------------------------------------- what AddItems adds

  predicate From(src: Source, p: Hash) { p.ItemID? && p.source == src }

  lemma {:induction false} AddItemsSplit<V>(m: map<Hash, V>, src: Source, vs: seq<V>)
    ensures AddItems(m, src, vs) == m + AddItems(map[], src, vs)
  {
    if vs != [] {
      AddItemsSplit(m, src, vs[..|vs| - 1]);
    }
  }

  lemma {:induction false} ItemsKeys<V>(src: Source, vs: seq<V>)
    ensures forall p :: p in AddItems(map[], src, vs) <==> From(src, p) && p.index < |vs|
    ensures forall p :: From(src, p) && p.index < |vs| ==>
            p in AddItems(map[], src, vs) && AddItems(map[], src, vs)[p] == vs[p.index]
  {
    if vs != [] {
      ItemsKeys(src, vs[..|vs| - 1]);
    }
  }

  // ---------------------------------------------------------------- steps that keep ids fresh

  /** New spendable outputs. */
  lemma {:induction false} AddOutputsFresh(s: State, seen: set<Txn>, n: nat, extra: map<Hash, Output>)
    requires Fresh(s, seen, n)
    requires forall p :: p in extra ==> Untouched(s, seen, p) && Used(s.contracts, seen, n, p)
    ensures Fresh(s.(outputs := s.outputs + extra), seen, n)
  {
  }

  /** New delayed outputs. */
  lemma {:induction false} AddDelayedFresh(s: State, seen: set<Txn>, n: nat, k: nat, extra: map<Hash, Output>)
    requires Fresh(s, seen, n) && k in s.delayed
    requires forall p :: p in extra ==> Untouched(s, seen, p) && Used(s.contracts, seen, n, p)
    ensures Fresh(s.(delayed := s.delayed[k := s.delayed[k] + extra]), seen, n)
  {
    var s' := s.(delayed := s.delayed[k := s.delayed[k] + extra]);
    forall j: nat, p | Held(s'.delayed, j, p)
      ensures Held(s.delayed, j, p) || (j == k && p in extra)
    {
    }
    forall u, p | u in seen && Spends(u, p)
      ensures !Live(s', p)
    {
      assert !Live(s, p);
    }
    forall i: nat, j: nat, p | Held(s'.delayed, i, p) && Held(s'.delayed, j, p)
      ensures i == j
    {
      if p in extra {
        assert !Live(s, p);
      }
    }
  }

  /** Closing contracts. */
  lemma {:induction false} CloseFresh(s: State, seen: set<Txn>, n: nat, ids: set<Hash>)
    requires Fresh(s, seen, n)
    ensures Fresh(s.(contracts := s.contracts - ids), seen, n)
  {
    var s' := s.(contracts := s.contracts - ids);
    assert forall p :: Live(s', p) <==> Live(s, p);
  }

  /** Contract contents do not matter, only which are open. */
  lemma {:induction false} ReviseFresh(s: State, seen: set<Txn>, n: nat, contracts: map<Hash, Contract>)
    requires Fresh(s, seen, n) && contracts.Keys == s.contracts.Keys
    ensures Fresh(s.(contracts := contracts), seen, n)
  {
    var s' := s.(contracts := contracts);
    assert forall p :: Live(s', p) <==> Live(s, p);
    assert forall p :: Used(s'.contracts, seen, n, p) <==> Used(s.contracts, seen, n, p);
  }

  /** A new, empty bucket. */
  lemma {:induction false} OpenFresh(s: State, seen: set<Txn>, n: nat, k: nat)
    requires Fresh(s, seen, n)
    ensures Fresh(s.(delayed := OpenBucket(s.delayed, k)), seen, n)
  {
    var s' := s.(delayed := OpenBucket(s.delayed, k));
    assert forall j: nat, p :: Held(s'.delayed, j, p) <==> Held(s.delayed, j, p);
    assert forall p :: Live(s', p) <==> Live(s, p);
  }

  lemma {:induction false} MatureFresh(s: State, seen: set<Txn>, n: nat, h: nat)
    requires Fresh(s, seen, n)
    ensures Fresh(Mature(s, h), seen, n)
  {
    var s' := Mature(s, h);
    if s' != s {
      forall j: nat, p
        ensures Held(s'.delayed, j, p) <==> Held(s.delayed, j, p) && j != h
      {
      }
      forall p
        ensures p in s'.outputs <==> p in s.outputs || Held(s.delayed, h, p)
      {
      }
      forall p | Live(s', p)
        ensures Live(s, p)
      {
        if p !in s'.outputs {
          var k: nat :| Held(s'.delayed, k, p);
          assert Held(s.delayed, k, p);
        }
      }
    }
  }

  /** The height bound on payouts may grow. */
  lemma {:induction false} RaiseFresh(s: State, seen: set<Txn>, n: nat, n': nat)
    requires Fresh(s, seen, n) && n <= n'
    ensures Fresh(s, seen, n')
  {
  }

  /** Spending inputs and forming contracts, which together enter the
      transaction into the record. */
  lemma {:induction false} EnterFresh(s: State, seen: set<Txn>, n: nat, u: Txn, spent: set<Hash>,
                                      formed: map<Hash, Contract>)
    requires Fresh(s, seen, n)
    requires formed != map[] ==> u !in seen
    requires forall c :: c in formed ==> From(TxnContracts(u), c)
    requires u.siacoinInputs != [] ==> u.siacoinInputs[0].parentID in spent && u.siacoinInputs[0].parentID in s.outputs
    ensures Fresh(s.(outputs := s.outputs - spent, contracts := s.contracts + formed), seen + {u}, n)
  {
    var s' := s.(outputs := s.outputs - spent, contracts := s.contracts + formed);
    var seen' := seen + {u};
    forall p | Used(s.contracts, seen, n, p)
      ensures Used(s'.contracts, seen', n, p)
    {
    }
    forall p | Live(s', p)
      ensures Live(s, p)
    {
      if p !in s.outputs {
        var k: nat :| Held(s'.delayed, k, p);
        assert Held(s.delayed, k, p);
      }
    }
    forall v, p | v in seen' && Spends(v, p)
      ensures Used(s'.contracts, seen', n, p) && !Live(s', p)
    {
      if v !in seen {
        assert p in s.outputs && p !in s'.outputs;
        assert forall k: nat :: !Held(s.delayed, k, p);
      }
    }
  }
}
