/** The change log: a linked list keyed by the hash of its entries
    (modules/consensus/changelog.go). */
module ChangeLog {
  import opened Types
  import opened Hashing

  datatype ChangeEntry = ChangeEntry(reverted: seq<Hash>, applied: seq<Hash>) {
    function ID(): Hash { EntryID(reverted, applied) }
  }

  datatype ChangeNode = ChangeNode(entry: ChangeEntry, next: Hash)

  /** ConsensusChangeBeginning. */
  const BEGINNING := ZERO

  function GenesisEntry(genesis: Hash): ChangeEntry { ChangeEntry([], [genesis]) }

  /** The id of the entry after position i; the empty id at the end. */
  function NextID(entries: seq<ChangeEntry>, i: nat): Hash {
    if i + 1 < |entries| then entries[i + 1].ID() else ZERO
  }

  /** The node of the i-th entry points to the next one. */
  predicate LinkedAt(nodes: map<Hash, ChangeNode>, entries: seq<ChangeEntry>, i: nat)
    requires i < |entries|
  {
    entries[i].ID() in nodes && nodes[entries[i].ID()] == ChangeNode(entries[i], NextID(entries, i))
  }

  ghost predicate Logged(entries: seq<ChangeEntry>, id: Hash) {
    exists i :: 0 <= i < |entries| && entries[i].ID() == id
  }

  predicate NoRepeats(entries: seq<ChangeEntry>) {
    forall i, j :: 0 <= i < j < |entries| ==> entries[i] != entries[j]
  }

  /** The bucket holds exactly these entries, linked in this order. */
  ghost predicate Linked(nodes: map<Hash, ChangeNode>, tail: Hash, entries: seq<ChangeEntry>) {
    && entries != []
    && tail == entries[|entries| - 1].ID()
    && NoRepeats(entries)
    && (forall i :: 0 <= i < |entries| ==> LinkedAt(nodes, entries, i))
    && (forall id :: id in nodes ==> Logged(entries, id))
  }

  lemma {:induction false} AppendLinks(nodes: map<Hash, ChangeNode>, tail: Hash, entries: seq<ChangeEntry>,
                                       ce: ChangeEntry)
    requires Linked(nodes, tail, entries) && ce !in entries
    ensures tail in nodes && tail != ce.ID()
    ensures Linked(nodes[ce.ID() := ChangeNode(ce, ZERO)][tail := ChangeNode(nodes[tail].entry, ce.ID())], ce.ID(),
            entries + [ce])
  {
    var last, more := |entries| - 1, entries + [ce];
    assert LinkedAt(nodes, entries, last) && entries[last] in entries;
    var nodes' := nodes[ce.ID() := ChangeNode(ce, ZERO)][tail := ChangeNode(nodes[tail].entry, ce.ID())];
    forall i | 0 <= i < |more|
      ensures LinkedAt(nodes', more, i)
    {
      if i < last {
        assert LinkedAt(nodes, entries, i) && entries[i] != entries[last] && entries[i] in entries;
      }
    }
    forall id | id in nodes'
      ensures Logged(more, id)
    {
      StillLogged(entries, ce, id);
      assert id == ce.ID() || id in nodes;
    }
  }

  lemma {:induction false} StillLogged(entries: seq<ChangeEntry>, ce: ChangeEntry, id: Hash)
    ensures Logged(entries + [ce], id) <==> Logged(entries, id) || id == ce.ID()
  {
    var more := entries + [ce];
    if id == ce.ID() {
      assert more[|entries|].ID() == id;
    }
    if i :| 0 <= i < |entries| && entries[i].ID() == id {
      assert more[i].ID() == id;
    }
  }

  class ChangeLog {
    var nodes: map<Hash, ChangeNode>
    var tail: Hash
    ghost var entries: seq<ChangeEntry>   // all entries ever appended, in order

    ghost predicate Valid()
      reads this
    {
      Linked(nodes, tail, entries)
    }

    /** createChangeLog. */
    constructor (genesis: Hash)
      ensures Valid() && entries == [GenesisEntry(genesis)]
    {
      var ge := GenesisEntry(genesis);
      nodes := map[ge.ID() := ChangeNode(ge, ZERO)];
      tail := ge.ID();
      entries := [ge];
      new;
      assert entries[0].ID() == ge.ID();
    }

    method Restore(ns: map<Hash, ChangeNode>, t: Hash, ghost es: seq<ChangeEntry>)
      modifies this
      ensures nodes == ns && tail == t && entries == es
    {
      nodes, tail, entries := ns, t, es;
    }

    /** appendChangeLog. An entry that is already in the log would cut it short. */
    method Append(ce: ChangeEntry)
      requires Valid() && ce !in entries
      modifies this
      ensures Valid() && entries == old(entries) + [ce]
    {
      hide Linked;
      AppendLinks(nodes, tail, entries, ce);
      var ceid := ce.ID();
      nodes := nodes[ceid := ChangeNode(ce, ZERO)];
      if tail != ZERO {
        nodes := nodes[tail := ChangeNode(nodes[tail].entry, ceid)];
      }
      tail := ceid;
      entries := entries + [ce];
      assert old(tail) != ZERO by { TailIsAnEntry(old(nodes), old(tail), old(entries)); }
    }

    method GetEntry(id: Hash) returns (ce: Option<ChangeEntry>)
      requires Valid()
      ensures ce.Some? ==> ce.value in entries && ce.value.ID() == id
      ensures ce.None? ==> !Logged(entries, id)
    {
      if id !in nodes {
        forall i | 0 <= i < |entries|
          ensures entries[i].ID() != id
        {
          assert LinkedAt(nodes, entries, i);
        }
        return None;
      }
      assert Logged(entries, id);
      ghost var i :| 0 <= i < |entries| && entries[i].ID() == id;
      assert LinkedAt(nodes, entries, i);
      return Some(nodes[id].entry);
    }

    method NextEntry(ce: ChangeEntry, ghost i: nat) returns (next: Option<ChangeEntry>)
      requires Valid() && i < |entries| && ce == entries[i]
      ensures next == EntryAt(entries, i + 1)
    {
      assert LinkedAt(nodes, entries, i);
      var node := nodes[ce.ID()];
      next := GetEntry(node.next);
      if i + 1 < |entries| {
        assert entries[i + 1].ID() == node.next;
      }
    }

    /** The first entry that a subscriber with this start id has not seen. */
    method FirstUnseen(start: Hash, genesis: Hash) returns (known: bool, entry: Option<ChangeEntry>, ghost k: nat)
      requires Valid() && entries[0] == GenesisEntry(genesis)
      ensures known <==> start == BEGINNING || Logged(entries, start)
      ensures known ==> StartsAt(entries, start, k) && entry == EntryAt(entries, k)
    {
      k := 0;
      if start == BEGINNING {
        return true, Some(GenesisEntry(genesis)), 0;
      }
      entry := GetEntry(start);
      if entry.None? {
        return false, None, 0;
      }
      k :| 0 <= k < |entries| && entries[k] == entry.value;
      entry := NextEntry(entry.value, k);
      return true, entry, k + 1;
    }

    /** One batch of changes, sent while the lock is held. */
    method SendBatch(first: ChangeEntry, ghost at: nat)
        returns (sent: seq<ChangeEntry>, entry: Option<ChangeEntry>, latest: Hash)
      requires Valid() && at < |entries| && first == entries[at]
      ensures sent == entries[at..at + BatchLength(entries, at)]
      ensures entry == EntryAt(entries, at + BatchLength(entries, at))
      ensures latest == entries[at + BatchLength(entries, at) - 1].ID()
    {
      hide Linked;
      sent, entry, latest := [], Some(first), first.ID();
      var i := 0;
      while i < BATCH && entry.Some?
        invariant i <= BatchLength(entries, at) && sent == entries[at..at + i]
        invariant entry == EntryAt(entries, at + i)
        invariant latest == if i == 0 then first.ID() else entries[at + i - 1].ID()
        decreases BATCH - i
      {
        latest := entry.value.ID();
        sent := sent + [entry.value];
        entry := NextEntry(entry.value, at + i);
        i := i + 1;
      }
    }

    /** managedInitializeSubscribe when nothing is appended meanwhile: every
        entry after the start id, once, in order, up to the tail. */
    method CatchUp(start: Hash, genesis: Hash) returns (known: bool, sent: seq<ChangeEntry>, latest: Hash, ghost k: nat)
      requires Valid() && entries[0] == GenesisEntry(genesis)
      ensures known <==> start == BEGINNING || Logged(entries, start)
      ensures known ==> StartsAt(entries, start, k) && sent == entries[k..] && latest == tail
    {
      hide Logged, StartsAt, Linked, BatchLength;
      var entry;
      sent, latest := [], start;
      known, entry, k := FirstUnseen(start, genesis);
      if !known {
        return;
      }
      TailIsAnEntry(nodes, tail, entries);
      StartsInside(entries, start, k);
      ghost var at := k;
      while entry.Some?
        invariant k <= at <= |entries| && sent == entries[k..at]
        invariant entry == EntryAt(entries, at)
        invariant latest == if at == k then start else entries[at - 1].ID()
        decreases |entries| - at
      {
        var more;
        ghost var n := BatchLength(entries, at);
        more, entry, latest := SendBatch(entry.value, at);
        Joined(entries, k, at, at + n);
        sent := sent + more;
        at := at + n;
      }
    }
  }

  lemma {:induction false} Joined(entries: seq<ChangeEntry>, i: nat, j: nat, k: nat)
    requires i <= j <= k <= |entries|
    ensures entries[i..j] + entries[j..k] == entries[i..k]
  {
  }

  const BATCH: nat := 100

  /** How many entries a batch that starts at a position holds. */
  function BatchLength(entries: seq<ChangeEntry>, at: nat): (n: nat)
    requires at < |entries|
    ensures 0 < n <= |entries| - at
  {
    if |entries| - at < BATCH then |entries| - at else BATCH
  }

  function EntryAt(entries: seq<ChangeEntry>, at: nat): Option<ChangeEntry> {
    if at < |entries| then Some(entries[at]) else None
  }

  lemma {:induction false} StartsInside(entries: seq<ChangeEntry>, start: Hash, k: nat)
    requires entries != [] && StartsAt(entries, start, k)
    ensures k <= |entries| && (k == |entries| ==> start == entries[|entries| - 1].ID())
  {
  }

  lemma {:induction false} TailIsAnEntry(nodes: map<Hash, ChangeNode>, tail: Hash, entries: seq<ChangeEntry>)
    requires Linked(nodes, tail, entries)
    ensures entries != [] && tail != ZERO && tail == entries[|entries| - 1].ID()
  {
  }

  /** Position k is the first one a subscriber that knows the start id has not seen. */
  predicate StartsAt(entries: seq<ChangeEntry>, start: Hash, k: nat) {
    if start == BEGINNING then k == 0 else 0 < k <= |entries| && entries[k - 1].ID() == start
  }
}
