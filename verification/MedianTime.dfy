/** The median-of-eleven timestamp rule (modules/consensus/block_rules.go). */
module MedianTime {
  import opened Types
  import opened Hashing
  import opened Chain
  import opened Buckets
  import opened Sorting

  const MEDIAN_TIMESTAMP_WINDOW: nat := 11

  /** The timestamps of a block and its ancestors, newest first; the genesis
      timestamp repeats where there are no more ancestors. */
  function WindowTimes(id: Hash, n: nat): (w: seq<int>)
    ensures |w| == n
    decreases n, id
  {
    if n == 0 then []
    else if !id.BlockID? then seq(n, _ => 0)
    else [id.block.timestamp] + WindowTimes(if id.block.parentID == ZERO then id else id.block.parentID, n - 1)
  }

  // ---------------------------------------------------------------- counting

  /** How many elements are at least m. */
  function AtLeast(s: seq<int>, m: int): nat {
    if s == [] then 0 else (if s[0] >= m then 1 else 0) + AtLeast(s[1..], m)
  }

  lemma {:induction false} InsertCounts(x: int, s: seq<int>, m: int)
    ensures AtLeast(Insert(x, s), m) == AtLeast(s, m) + if x >= m then 1 else 0
  {
    if s == [] || x <= s[0] {
      assert ([x] + s)[1..] == s;
    } else {
      InsertCounts(x, s[1..], m);
      assert ([s[0]] + Insert(x, s[1..]))[1..] == Insert(x, s[1..]);
    }
  }

  lemma {:induction false} SortCounts(s: seq<int>, m: int)
    ensures AtLeast(Sort(s), m) == AtLeast(s, m)
  {
    if s != [] {
      SortCounts(s[1..], m);
      InsertCounts(s[0], Sort(s[1..]), m);
    }
  }

  /** In a sorted list, position k is at least m exactly when all but k elements are. */
  lemma {:induction false} SortedPosition(s: seq<int>, k: nat, m: int)
    requires Sorted(s) && k < |s|
    ensures s[k] >= m <==> AtLeast(s, m) >= |s| - k
  {
    AtMostAll(s, m);
    if k == 0 {
      if s[0] >= m {
        AllAtLeast(s, m);
      } else {
        AtMostAll(s[1..], m);
      }
    } else {
      SortedPosition(s[1..], k - 1, m);
      if s[0] >= m {
        AllAtLeast(s, m);
        assert s[0] <= s[k];
      }
    }
  }

  lemma {:induction false} AtMostAll(s: seq<int>, m: int)
    ensures AtLeast(s, m) <= |s|
  {
    if s != [] {
      AtMostAll(s[1..], m);
    }
  }

  lemma {:induction false} AllAtLeast(s: seq<int>, m: int)
    requires Sorted(s) && s != [] ==> s[0] >= m
    requires Sorted(s)
    ensures AtLeast(s, m) == |s|
  {
    if s != [] {
      AllAtLeast(s[1..], m);
    }
  }

  lemma {:induction false} CountTail(s: seq<int>, m: int)
    requires s != []
    ensures AtLeast(s, m) == AtLeast(s[..|s| - 1], m) + if s[|s| - 1] >= m then 1 else 0
  {
    if |s| > 1 {
      CountTail(s[1..], m);
      assert s[1..][..|s| - 2] == s[..|s| - 1][1..];
    }
  }

  // ---------------------------------------------------------------- the rule

  function Median(w: seq<int>): int
    requires w != []
  {
    SortSorts(w);
    Sort(w)[|w| / 2]
  }

  /** The earliest timestamp that a child of this block may have. */
  function MinimumTime(id: Hash): int {
    Median(WindowTimes(id, MEDIAN_TIMESTAMP_WINDOW))
  }

  /** The median is one of the times, no smaller than half and no larger than half of them. */
  lemma {:induction false} MedianSplits(w: seq<int>)
    requires |w| == MEDIAN_TIMESTAMP_WINDOW
    ensures Median(w) in w
    ensures AtLeast(w, Median(w)) >= 6 && AtLeast(w, Median(w) + 1) <= 5
  {
    SortSorts(w);
    var m := Median(w);
    assert m in multiset(Sort(w));
    SortedPosition(Sort(w), 5, m);
    SortedPosition(Sort(w), 5, m + 1);
    SortCounts(w, m);
    SortCounts(w, m + 1);
  }

  /** A new time that is no earlier than the median does not lower it. */
  lemma {:induction false} MedianMovesForward(w: seq<int>, t: int)
    requires |w| == MEDIAN_TIMESTAMP_WINDOW && t >= Median(w)
    ensures Median([t] + w[..MEDIAN_TIMESTAMP_WINDOW - 1]) >= Median(w)
  {
    var m, w' := Median(w), [t] + w[..MEDIAN_TIMESTAMP_WINDOW - 1];
    MedianSplits(w);
    CountTail(w, m);
    assert w'[1..] == w[..|w| - 1];
    SortSorts(w');
    SortCounts(w', m);
    SortedPosition(Sort(w'), 5, m);
  }

  lemma {:induction false} WindowPrefix(id: Hash, n: nat, k: nat)
    requires k <= n
    ensures WindowTimes(id, n)[..k] == WindowTimes(id, k)
    decreases n
  {
    if k > 0 && id.BlockID? {
      var next := if id.block.parentID == ZERO then id else id.block.parentID;
      WindowPrefix(next, n - 1, k - 1);
      assert WindowTimes(id, n)[..k] == [id.block.timestamp] + WindowTimes(next, n - 1)[..k - 1];
    }
  }

  /** Every block is no earlier than its parent's rule allows. */
  ghost predicate Timely(id: Hash) {
    id == GenesisID() || (id.BlockID? && Timely(id.block.parentID)
      && id.block.timestamp >= MinimumTime(id.block.parentID))
  }

  lemma {:induction false} NeverBackOneBlock(id: Hash)
    requires id != GenesisID() && Timely(id)
    ensures MinimumTime(id.block.parentID) <= MinimumTime(id)
  {
    hide Median, GenesisID;
    var p, n := id.block.parentID, MEDIAN_TIMESTAMP_WINDOW;
    assert p != ZERO by { GenesisIsNotZero(); }
    WindowPrefix(p, n, n - 1);
    assert WindowTimes(id, n) == [id.block.timestamp] + WindowTimes(p, n - 1);
    MedianMovesForward(WindowTimes(p, n), id.block.timestamp);
  }

  lemma {:induction false} GenesisIsNotZero()
    ensures GenesisID() != ZERO
  {
    hide Allocation;
  }

  /** Along every chain of accepted blocks the minimum time never goes back. */
  lemma {:induction false} NeverBack(id: Hash, ancestor: Hash)
    requires Timely(id) && ancestor in Ancestry(id)
    ensures MinimumTime(ancestor) <= MinimumTime(id)
  {
    hide MinimumTime, GenesisID;
    if id != GenesisID() && ancestor != id {
      NeverBackOneBlock(id);
      NeverBack(id.block.parentID, ancestor);
    }
  }

  // ---------------------------------------------------------------- the loop

  /** The chain of parents is in the block map, down to genesis. */
  ghost predicate Stored(blockMap: map<Hash, ProcessedBlock>, id: Hash) {
    && id.BlockID? && id in blockMap && blockMap[id].block == id.block
    && (id.block.parentID != ZERO ==> Stored(blockMap, id.block.parentID))
  }

  /** The window from a block on, with its first time moved to the times already read. */
  lemma {:induction false} OneMore(now: seq<int>, before: seq<int>, was: Hash, at: Hash, n: nat)
    requires was.BlockID? && n > 0 && now == before + [was.block.timestamp]
    requires n == 1 || at == if was.block.parentID == ZERO then was else was.block.parentID
    ensures before + WindowTimes(was, n) == now + WindowTimes(at, n - 1)
  {
  }

  /** minimumValidChildTimestamp of a child of `id`. */
  method MinimumValidChildTimestamp(blockMap: map<Hash, ProcessedBlock>, parentID: Hash, blockTimestamp: uint64,
                                    ghost id: Hash)
      returns (t: int)
    requires Stored(blockMap, id) && parentID == id.block.parentID && blockTimestamp == id.block.timestamp
    ensures t == MinimumTime(id)
  {
    hide Median, Sort;
    var windowTimes := new int[MEDIAN_TIMESTAMP_WINDOW];
    windowTimes[0] := blockTimestamp;
    var parent := parentID;
    ghost var at := id;
    for i := 1 to MEDIAN_TIMESTAMP_WINDOW
      invariant Stored(blockMap, at) && parent == at.block.parentID && windowTimes[i - 1] == at.block.timestamp
      invariant WindowTimes(id, MEDIAN_TIMESTAMP_WINDOW)
                == windowTimes[..i - 1] + WindowTimes(at, MEDIAN_TIMESTAMP_WINDOW - (i - 1))
    {
      ghost var before, was := windowTimes[..i - 1], at;
      if parent == ZERO {
        windowTimes[i] := windowTimes[i - 1];
      } else {
        var pb := blockMap[parent];
        at := parent;
        windowTimes[i] := pb.block.timestamp;
        parent := pb.block.parentID;
      }
      OneMore(windowTimes[..i], before, was, at, MEDIAN_TIMESTAMP_WINDOW - (i - 1));
    }
    OneMore(windowTimes[..], windowTimes[..MEDIAN_TIMESTAMP_WINDOW - 1], at, at, 1);
    assert windowTimes[..] + WindowTimes(at, 0) == windowTimes[..];
    t := Median(windowTimes[..]);
  }
}
