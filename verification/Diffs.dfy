/** Diffs and what committing them does to the buckets of the consensus
    database (modules/consensus/diffs.go, modules/consensus/consensusdb.go). */
module Diffs {
  import opened Hashing

  /** SiacoinOutputDiff and FileContractDiff; direction true is DiffApply. */
  datatype Diff<K, V> = Diff(direction: bool, id: K, value: V)

  /** DelayedSiacoinOutputDiff. */
  datatype DelayedDiff = DelayedDiff(direction: bool, id: Hash, value: Output, maturityHeight: nat)

  type Delayed = map<nat, map<Hash, Output>>

  // ---------------------------------------------------------------- one bucket

  /** Adding a key or deleting it, as the direction says. */
  function Commit<K(==), V>(m: map<K, V>, d: Diff<K, V>, dir: bool): map<K, V> {
    if d.direction == dir then m[d.id := d.value] else m - {d.id}
  }

  /** The diff records exactly what applying it to m changes. */
  ghost predicate Fits<K, V>(m: map<K, V>, d: Diff<K, V>) {
    if d.direction then d.id !in m else d.id in m && m[d.id] == d.value
  }

  /** Committing a list of diffs forwards. */
  function CommitAll<K(==), V>(m: map<K, V>, ds: seq<Diff<K, V>>): map<K, V> {
    if ds == [] then m
    else Commit(CommitAll(m, ds[..|ds| - 1]), ds[|ds| - 1], true)
  }

  ghost predicate FitAll<K, V>(m: map<K, V>, ds: seq<Diff<K, V>>) {
    ds == [] || (FitAll(m, ds[..|ds| - 1]) && Fits(CommitAll(m, ds[..|ds| - 1]), ds[|ds| - 1]))
  }

  /** Committing a list of diffs backwards, last one first. */
  function RevertAll<K(==), V>(m: map<K, V>, ds: seq<Diff<K, V>>): map<K, V>
    decreases |ds|
  {
    if ds == [] then m
    else RevertAll(Commit(m, ds[|ds| - 1], false), ds[..|ds| - 1])
  }

  /** The diffs lead from m to m', and say so exactly. */
  ghost predicate Explains<K, V>(m: map<K, V>, ds: seq<Diff<K, V>>, m': map<K, V>) {
    FitAll(m, ds) && CommitAll(m, ds) == m'
  }

  lemma {:induction false} RevertUndoes<K, V>(m: map<K, V>, ds: seq<Diff<K, V>>)
    requires FitAll(m, ds)
    ensures RevertAll(CommitAll(m, ds), ds) == m
  {
    if ds != [] {
      var pre := ds[..|ds| - 1];
      var d := ds[|ds| - 1];
      assert Commit(Commit(CommitAll(m, pre), d, true), d, false) == CommitAll(m, pre);
      RevertUndoes(m, pre);
    }
  }

  lemma ExplainsStep<K, V>(m: map<K, V>, ds: seq<Diff<K, V>>, m': map<K, V>, d: Diff<K, V>)
    requires Explains(m, ds, m') && Fits(m', d)
    ensures Explains(m, ds + [d], Commit(m', d, true))
  {
    assert (ds + [d])[..|ds + [d]| - 1] == ds;
  }

  // ---------------------------------------------------------------- the delayed buckets

  /** addDSCO / removeDSCO; the source dereferences the bucket of the height. */
  function CommitDelayed(m: Delayed, d: DelayedDiff, dir: bool): Delayed
    requires d.maturityHeight in m
  {
    var h := d.maturityHeight;
    if d.direction == dir then m[h := m[h][d.id := d.value]] else m[h := m[h] - {d.id}]
  }

  ghost predicate FitsDelayed(m: Delayed, d: DelayedDiff) {
    && d.maturityHeight in m
    && Fits(m[d.maturityHeight], Diff(d.direction, d.id, d.value))
  }

  /** Every diff names a bucket that exists. */
  predicate Housed(m: Delayed, ds: seq<DelayedDiff>) {
    forall i :: 0 <= i < |ds| ==> ds[i].maturityHeight in m
  }

  function CommitAllDelayed(m: Delayed, ds: seq<DelayedDiff>): (r: Delayed)
    requires Housed(m, ds)
    ensures r.Keys == m.Keys
  {
    if ds == [] then m
    else CommitDelayed(CommitAllDelayed(m, ds[..|ds| - 1]), ds[|ds| - 1], true)
  }

  ghost predicate FitAllDelayed(m: Delayed, ds: seq<DelayedDiff>)
    requires Housed(m, ds)
  {
    ds == [] || (FitAllDelayed(m, ds[..|ds| - 1]) && FitsDelayed(CommitAllDelayed(m, ds[..|ds| - 1]), ds[|ds| - 1]))
  }

  function RevertAllDelayed(m: Delayed, ds: seq<DelayedDiff>): (r: Delayed)
    requires Housed(m, ds)
    ensures r.Keys == m.Keys
    decreases |ds|
  {
    if ds == [] then m
    else RevertAllDelayed(CommitDelayed(m, ds[|ds| - 1], false), ds[..|ds| - 1])
  }

  ghost predicate ExplainsDelayed(m: Delayed, ds: seq<DelayedDiff>, m': Delayed) {
    Housed(m, ds) && FitAllDelayed(m, ds) && CommitAllDelayed(m, ds) == m'
  }

  lemma RevertOneDelayed(m: Delayed, d: DelayedDiff)
    requires FitsDelayed(m, d)
    ensures CommitDelayed(CommitDelayed(m, d, true), d, false) == m
  {
    var h := d.maturityHeight;
    if d.direction {
      assert m[h][d.id := d.value] - {d.id} == m[h];
    } else {
      assert (m[h] - {d.id})[d.id := d.value] == m[h];
    }
  }

  lemma {:induction false} RevertUndoesDelayed(m: Delayed, ds: seq<DelayedDiff>)
    requires Housed(m, ds) && FitAllDelayed(m, ds)
    ensures RevertAllDelayed(CommitAllDelayed(m, ds), ds) == m
  {
    if ds != [] {
      var pre := ds[..|ds| - 1];
      RevertOneDelayed(CommitAllDelayed(m, pre), ds[|ds| - 1]);
      RevertUndoesDelayed(m, pre);
    }
  }

  lemma ExplainsDelayedStep(m: Delayed, ds: seq<DelayedDiff>, m': Delayed, d: DelayedDiff)
    requires ExplainsDelayed(m, ds, m') && FitsDelayed(m', d)
    ensures ExplainsDelayed(m, ds + [d], CommitDelayed(m', d, true))
  {
    assert (ds + [d])[..|ds + [d]| - 1] == ds;
  }
}
